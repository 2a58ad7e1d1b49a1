/** Printing string fields as JSON and finding them again by plain text search, after
    `build_mount_json`, `json_string_field`, `save_session` and `try_restore_session` in
    `app/main.cpp`. */
module JsonFields {
  datatype Option<+T> = None | Some(value: T)

  const QUOTE: char := '"'
  const BACKSLASH: char := '\\'

  function Escaped(s: string): string {
    if s == [] then [] else (if s[0] == QUOTE || s[0] == BACKSLASH then [BACKSLASH, s[0]] else [s[0]]) + Escaped(s[1..])
  }

  /** The lambda `esc`. */
  method Escape(s: string) returns (out: string)
    ensures out == Escaped(s)
  {
    out := [];
    for i := 0 to |s|
      invariant out + Escaped(s[i..]) == Escaped(s)
    {
      assert s[i..][1..] == s[i + 1..];
      var c := s[i];
      ghost var rest := Escaped(s[i + 1..]);
      if c == QUOTE || c == BACKSLASH {
        assert out + ([BACKSLASH, c] + rest) == (out + [BACKSLASH, c]) + rest;
        out := out + [BACKSLASH, c];
      } else {
        assert out + ([c] + rest) == (out + [c]) + rest;
        out := out + [c];
      }
    }
    assert out + [] == out;
  }

  // ---------------------------------------------------------------- texts

  /** A text of this kind: punctuation, and quoted strings. */
  datatype Token = Plain(c: char) | Quoted(s: string)

  predicate Punctuation(c: char) {
    c == '{' || c == '}' || c == ',' || c == ':'
  }

  function Render(ts: seq<Token>): string {
    if ts == [] then []
    else (if ts[0].Plain? then [ts[0].c] else [QUOTE] + Escaped(ts[0].s) + [QUOTE]) + Render(ts[1..])
  }

  predicate NoQuotes(s: string) {
    QUOTE !in s && BACKSLASH !in s
  }

  /** A key the search can be for: plain text that starts with no punctuation. */
  predicate Key(key: string) {
    key != [] && !Punctuation(key[0]) && NoQuotes(key)
  }

  /** Punctuation between strings, and a string before a colon is a key. */
  predicate WellFormed(ts: seq<Token>) {
    ts == [] ||
    (WellFormed(ts[1..])
     && (ts[0].Plain? ==> Punctuation(ts[0].c))
     && (ts[0].Quoted? ==> |ts| == 1 || (ts[1].Plain? && (ts[1].c == ':' ==> Key(ts[0].s)))))
  }

  /** The value of the first field of this key. */
  function Field(ts: seq<Token>, key: string): Option<string> {
    if ts == [] then None
    else if ts[0] == Quoted(key) && |ts| >= 3 && ts[1] == Plain(':') && ts[2].Quoted? then Some(ts[2].s)
    else Field(ts[1..], key)
  }

  // ---------------------------------------------------------------- the search

  function Needle(key: string): string {
    [QUOTE] + key + [QUOTE, ':', QUOTE]
  }

  /** Where the needle is found first, if anywhere. */
  function Find(src: string, needle: string): Option<nat> {
    if needle <= src then Some(0)
    else if src == [] then None
    else
      var at := Find(src[1..], needle);
      if at.None? then None else Some(at.value + 1)
  }

  /** The extraction loop: up to the next quote that is not escaped. */
  function Unescaped(src: string): string
    decreases |src|
  {
    if src == [] || src[0] == QUOTE then []
    else if src[0] == BACKSLASH && |src| > 1 then [src[1]] + Unescaped(src[2..])
    else [src[0]] + Unescaped(src[1..])
  }

  function Extracted(src: string, key: string): string {
    var at := Find(src, Needle(key));
    if at.None? then "" else if at.value + |Needle(key)| <= |src| then Unescaped(src[at.value + |Needle(key)|..]) else ""
  }

  /** `src.find(needle)`. */
  method FindNeedle(src: string, needle: string) returns (at: Option<nat>)
    ensures at == Find(src, needle)
  {
    var i: nat := 0;
    while i <= |src|
      invariant i <= |src| + 1
      invariant i <= |src| ==> Find(src, needle) == if Find(src[i..], needle).None? then None else Some(i + Find(src[i..], needle).value)
      invariant i == |src| + 1 ==> Find(src, needle) == None
    {
      if needle <= src[i..] { return Some(i); }
      if i < |src| { assert src[i..][1..] == src[i + 1..]; }
      i := i + 1;
    }
    return None;
  }

  /** `json_string_field`. */
  method JsonStringField(src: string, key: string) returns (out: string)
    ensures out == Extracted(src, key)
  {
    var needle := Needle(key);
    var at := FindNeedle(src, needle);
    if at.None? { return ""; }
    FoundFits(src, needle);
    out := ReadString(src, at.value + |needle|);
  }

  /** From behind the opening quote on. */
  method ReadString(src: string, start: nat) returns (out: string)
    requires start <= |src|
    ensures out == Unescaped(src[start..])
  {
    hide Unescaped;
    var pos: nat := start;
    out := [];
    while pos < |src| && src[pos] != QUOTE
      invariant start <= pos <= |src|
      invariant out + Unescaped(src[pos..]) == Unescaped(src[start..])
      decreases |src| - pos
    {
      UnescapedStep(src, pos);
      if src[pos] == BACKSLASH && pos + 1 < |src| {
        Regroup(out, [src[pos + 1]], Unescaped(src[pos + 2..]));
        out := out + [src[pos + 1]];
        pos := pos + 2;
      } else {
        Regroup(out, [src[pos]], Unescaped(src[pos + 1..]));
        out := out + [src[pos]];
        pos := pos + 1;
      }
    }
    UnescapedEnd(src, pos, out);
  }

  lemma UnescapedEnd(src: string, pos: nat, out: string)
    requires pos == |src| || (pos < |src| && src[pos] == QUOTE)
    ensures out + Unescaped(src[pos..]) == out
  {
    assert src[pos..] == [] || src[pos..][0] == QUOTE;
    assert out + [] == out;
  }

  lemma UnescapedStep(src: string, pos: nat)
    requires pos < |src| && src[pos] != QUOTE
    ensures Unescaped(src[pos..]) == if src[pos] == BACKSLASH && pos + 1 < |src| then [src[pos + 1]] + Unescaped(src[pos + 2..])
                                     else [src[pos]] + Unescaped(src[pos + 1..])
  {
    var rest := src[pos..];
    assert rest[1..] == src[pos + 1..];
    if |rest| > 1 { assert rest[2..] == src[pos + 2..]; }
  }

  lemma Regroup(a: string, b: string, c: string)
    ensures a + (b + c) == (a + b) + c
  {
  }

  lemma {:induction false} FoundFits(src: string, needle: string)
    ensures var at := Find(src, needle); at.Some? ==> at.value + |needle| <= |src|
    decreases |src|
  {
    if !(needle <= src) && src != [] {
      FoundFits(src[1..], needle);
    }
  }

  // ---------------------------------------------------------------- no false match

  /** What is printed after an opening quote. */
  function Behind(s: string, rest: string): string {
    Escaped(s) + [QUOTE] + rest
  }

  lemma BehindStep(s: string, rest: string)
    ensures s == [] ==> Behind(s, rest) == [QUOTE] + rest
    ensures s != [] ==> Behind(s, rest) == (if s[0] == QUOTE || s[0] == BACKSLASH then [BACKSLASH, s[0]] else [s[0]]) + Behind(s[1..], rest)
  {
    if s != [] {
      var head := if s[0] == QUOTE || s[0] == BACKSLASH then [BACKSLASH, s[0]] else [s[0]];
      assert (head + Escaped(s[1..])) + [QUOTE] + rest == head + (Escaped(s[1..]) + [QUOTE] + rest);
    } else {
      assert [] + [QUOTE] == [QUOTE];
    }
  }

  lemma PrefixTail(x: string, y: string, c: char, d: char)
    ensures [c] + x <= [d] + y <==> c == d && x <= y
  {
    if [c] + x <= [d] + y {
      assert ([c] + x)[0] == c && ([d] + y)[0] == d;
      assert x == ([c] + x)[1..] && y == ([d] + y)[1..];
    }
  }

  /** A printed string starts with the rest of the needle only if it is the key, and a colon and a
      quote follow. */
  lemma {:induction false} StartsInside(key: string, s: string, rest: string)
    requires NoQuotes(key)
    ensures key + [QUOTE, ':', QUOTE] <= Behind(s, rest) <==> s == key && [':', QUOTE] <= rest
    decreases |key|
  {
    var n := [QUOTE, ':', QUOTE];
    BehindStep(s, rest);
    hide Behind;
    if key == [] {
      assert key + n == [QUOTE] + [':', QUOTE];
      if s == [] {
        PrefixTail([':', QUOTE], rest, QUOTE, QUOTE);
      } else {
        assert Behind(s, rest)[0] != QUOTE;
        assert (key + n)[0] == QUOTE;
      }
    } else {
      assert key + n == [key[0]] + (key[1..] + n);
      if s == [] {
        PrefixTail(key[1..] + n, rest, key[0], QUOTE);
      } else if s[0] == QUOTE || s[0] == BACKSLASH {
        assert Behind(s, rest) == [BACKSLASH] + ([s[0]] + Behind(s[1..], rest));
        PrefixTail(key[1..] + n, [s[0]] + Behind(s[1..], rest), key[0], BACKSLASH);
        assert s != key;
      } else {
        PrefixTail(key[1..] + n, Behind(s[1..], rest), key[0], s[0]);
        StartsInside(key[1..], s[1..], rest);
        assert s == [s[0]] + s[1..] && key == [key[0]] + key[1..];
      }
    }
  }

  /** The search goes on behind this much of the text. */
  ghost predicate Skips(pre: string, rest: string, key: string) {
    Find(pre + rest, Needle(key)) == if Find(rest, Needle(key)).None? then None else Some(|pre| + Find(rest, Needle(key)).value)
  }

  lemma SkipOne(c: char, rest: string, key: string)
    requires !(Needle(key) <= [c] + rest)
    ensures Skips([c], rest, key)
  {
    assert ([c] + rest)[1..] == rest;
  }

  lemma SkipMore(c: char, pre: string, rest: string, key: string)
    requires Skips([c], pre + rest, key) && Skips(pre, rest, key)
    ensures Skips([c] + pre, rest, key)
  {
    hide Find, Needle;
    Regroup([c], pre, rest);
  }

  lemma NeedleAt(c: char, rest: string, key: string)
    ensures Needle(key) <= [c] + rest <==> c == QUOTE && key + [QUOTE, ':', QUOTE] <= rest
  {
    assert Needle(key) == [QUOTE] + (key + [QUOTE, ':', QUOTE]);
    PrefixTail(key + [QUOTE, ':', QUOTE], rest, QUOTE, c);
  }

  /** Nothing is found within a printed string, nor across its end, when no colon follows it or it
      has no quotes of its own. */
  lemma {:induction false} SkipString(s: string, rest: string, key: string)
    requires Key(key) && (rest == [] || Punctuation(rest[0]))
    requires NoQuotes(s) || !([':'] <= rest)
    ensures Skips(Escaped(s) + [QUOTE], rest, key)
    decreases |s|
  {
    hide Skips, Escaped;
    if s == [] {
      SkipEnd(rest, key);
    } else {
      SkipString(s[1..], rest, key);
      SkipNext(s, rest, key);
    }
  }

  lemma SkipEnd(rest: string, key: string)
    requires Key(key) && (rest == [] || Punctuation(rest[0]))
    ensures Skips(Escaped([]) + [QUOTE], rest, key)
  {
    NeedleAt(QUOTE, rest, key);
    assert (key + [QUOTE, ':', QUOTE])[0] == key[0];
    SkipOne(QUOTE, rest, key);
    assert Escaped([]) + [QUOTE] == [QUOTE];
  }

  lemma SkipNext(s: string, rest: string, key: string)
    requires s != [] && Key(key) && (NoQuotes(s) || !([':'] <= rest))
    requires Skips(Escaped(s[1..]) + [QUOTE], rest, key)
    ensures Skips(Escaped(s) + [QUOTE], rest, key)
  {
    hide Skips, Needle, Key, NoQuotes;
    var c, tail := s[0], Escaped(s[1..]) + [QUOTE];
    EscapedHead(s);
    assert c == QUOTE ==> !([':'] <= rest) by {
      if NoQuotes(s) { QuotelessHead(s); }
    }
    NoMatchInside(c, s[1..], rest, key);
    hide Escaped;
    SkipChar(c, tail, rest, key);
    if c == QUOTE || c == BACKSLASH {
      NeedleAt(BACKSLASH, ([c] + tail) + rest, key);
      SkipChar(BACKSLASH, [c] + tail, rest, key);
    }
  }

  lemma QuotelessHead(s: string)
    requires NoQuotes(s) && s != []
    ensures s[0] != QUOTE
  {
    assert s[0] in s;
  }

  lemma EscapedHead(s: string)
    requires s != []
    ensures var c, tail := s[0], Escaped(s[1..]) + [QUOTE];
            Escaped(s) + [QUOTE] == if c == QUOTE || c == BACKSLASH then [BACKSLASH] + ([c] + tail) else [c] + tail
  {
  }

  lemma NoMatchInside(c: char, s: string, rest: string, key: string)
    requires Key(key) && (c != QUOTE || !([':'] <= rest))
    ensures !(Needle(key) <= [c] + (Escaped(s) + [QUOTE] + rest))
  {
    StartsInside(key, s, rest);
    NeedleAt(c, Escaped(s) + [QUOTE] + rest, key);
    assert [':', QUOTE] <= rest ==> [':'] <= rest;
  }

  lemma SkipChar(c: char, tail: string, rest: string, key: string)
    requires Skips(tail, rest, key) && !(Needle(key) <= [c] + (tail + rest))
    ensures Skips([c] + tail, rest, key)
  {
    hide Needle, Find;
    SkipOne(c, tail + rest, key);
    SkipMore(c, tail, rest, key);
  }

  // ---------------------------------------------------------------- the field is found

  lemma {:induction false} UnescapedBehind(s: string, rest: string)
    ensures Unescaped(Behind(s, rest)) == s
    decreases |s|
  {
    BehindStep(s, rest);
    if s != [] {
      UnescapedBehind(s[1..], rest);
      hide Behind;
      var src := Behind(s, rest);
      assert src[1..] == if s[0] == QUOTE || s[0] == BACKSLASH then [s[0]] + Behind(s[1..], rest) else Behind(s[1..], rest);
      if s[0] == QUOTE || s[0] == BACKSLASH {
        assert src[2..] == Behind(s[1..], rest);
      }
    }
  }

  lemma ExtractSkip(pre: string, rest: string, key: string)
    requires Skips(pre, rest, key)
    ensures Extracted(pre + rest, key) == Extracted(rest, key)
  {
    hide Find, Unescaped, Needle;
    var at, n := Find(rest, Needle(key)), |Needle(key)|;
    if at.Some? {
      FoundFits(rest, Needle(key));
      assert (pre + rest)[|pre| + at.value + n..] == rest[at.value + n..];
    }
  }

  lemma ExtractHere(key: string, v: string, rest: string)
    ensures Extracted([QUOTE] + key + [QUOTE] + ([':'] + ([QUOTE] + Behind(v, rest))), key) == v
  {
    var src := [QUOTE] + key + [QUOTE] + ([':'] + ([QUOTE] + Behind(v, rest)));
    assert src == Needle(key) + Behind(v, rest);
    assert src[|Needle(key)|..] == Behind(v, rest);
    UnescapedBehind(v, rest);
  }

  /** What a token list starts with. */
  lemma RenderStarts(ts: seq<Token>)
    requires WellFormed(ts)
    ensures ts != [] ==> Render(ts) != [] && Render(ts)[0] == (if ts[0].Plain? then ts[0].c else QUOTE)
    ensures ts == [] ==> Render(ts) == []
    ensures ts != [] ==> Render(ts) == if ts[0].Plain? then [ts[0].c] + Render(ts[1..]) else [QUOTE] + Behind(ts[0].s, Render(ts[1..]))
  {
    if ts != [] && ts[0].Quoted? {
      Regroup([QUOTE], Escaped(ts[0].s) + [QUOTE], Render(ts[1..]));
      assert [QUOTE] + Escaped(ts[0].s) + [QUOTE] == [QUOTE] + (Escaped(ts[0].s) + [QUOTE]);
    }
  }

  /** For every text of this kind and every key, the search returns the value of the field, and
      nothing if there is no such field: no value can make up a field of its own. */
  lemma {:induction false} FieldFound(ts: seq<Token>, key: string)
    requires WellFormed(ts) && Key(key)
    ensures Extracted(Render(ts), key) == if Field(ts, key).Some? then Field(ts, key).value else ""
    decreases |ts|
  {
    RenderStarts(ts);
    if ts == [] {
      assert !(Needle(key) <= []);
    } else {
      var rest := Render(ts[1..]);
      FieldFound(ts[1..], key);
      RenderStarts(ts[1..]);
      if ts[0].Plain? {
        NeedleAt(ts[0].c, rest, key);
        SkipOne(ts[0].c, rest, key);
        hide Skips, Needle, Extracted, Find;
        ExtractSkip([ts[0].c], rest, key);
      } else {
        QuotedFound(ts, key, rest);
      }
    }
  }

  lemma QuotedFound(ts: seq<Token>, key: string, rest: string)
    requires WellFormed(ts) && Key(key) && ts != [] && ts[0].Quoted? && rest == Render(ts[1..])
    requires Extracted(rest, key) == if Field(ts[1..], key).Some? then Field(ts[1..], key).value else ""
    ensures Extracted([QUOTE] + Behind(ts[0].s, rest), key) == if Field(ts, key).Some? then Field(ts, key).value else ""
  {
    ColonFollows(ts, rest);
    if ts[0].s == key && |ts| >= 3 && ts[1] == Plain(':') && ts[2].Quoted? {
      QuotedHere(ts, key, rest);
    } else {
      hide Extracted, Behind, WellFormed, Render;
      QuotedSkipped(ts[0].s, key, rest);
    }
  }

  lemma QuotedHere(ts: seq<Token>, key: string, rest: string)
    requires WellFormed(ts) && Key(key) && |ts| >= 3 && rest == Render(ts[1..])
    requires ts[0] == Quoted(key) && ts[1] == Plain(':') && ts[2].Quoted?
    ensures Extracted([QUOTE] + Behind(key, rest), key) == ts[2].s
  {
    KeyEscaped(key);
    assert ts[1..][1..] == ts[2..] && ts[2..][1..] == ts[3..];
    RenderStarts(ts[1..]);
    RenderStarts(ts[2..]);
    hide Extracted, Render, WellFormed, Key;
    ExtractHere(key, ts[2].s, Render(ts[3..]));
    BehindKey(key, rest);
  }

  lemma BehindKey(key: string, rest: string)
    requires Escaped(key) == key
    ensures [QUOTE] + Behind(key, rest) == [QUOTE] + key + [QUOTE] + rest
  {
    hide Escaped;
  }

  lemma QuotedSkipped(s: string, key: string, rest: string)
    requires Key(key) && (rest == [] || Punctuation(rest[0])) && (NoQuotes(s) || !([':'] <= rest))
    requires s != key || !([':', QUOTE] <= rest)
    ensures Extracted([QUOTE] + Behind(s, rest), key) == Extracted(rest, key)
  {
    StartsInside(key, s, rest);
    NeedleAt(QUOTE, Behind(s, rest), key);
    SkipString(s, rest, key);
    hide Needle, Find, Extracted, Skips, Escaped;
    SkipOne(QUOTE, Behind(s, rest), key);
    SkipMore(QUOTE, Escaped(s) + [QUOTE], rest, key);
    ExtractSkip([QUOTE] + (Escaped(s) + [QUOTE]), rest, key);
    assert [QUOTE] + Behind(s, rest) == [QUOTE] + (Escaped(s) + [QUOTE]) + rest;
  }

  /** What stands behind a quoted string: nothing, or punctuation, a colon only behind a key. */
  lemma ColonFollows(ts: seq<Token>, rest: string)
    requires WellFormed(ts) && ts != [] && ts[0].Quoted? && rest == Render(ts[1..])
    ensures rest == [] || Punctuation(rest[0])
    ensures NoQuotes(ts[0].s) || !([':'] <= rest)
    ensures [':', QUOTE] <= rest <==> |ts| >= 3 && ts[1] == Plain(':') && ts[2].Quoted?
  {
    RenderStarts(ts[1..]);
    if |ts| >= 2 {
      assert ts[1..][1..] == ts[2..];
      RenderStarts(ts[2..]);
      var tail := Render(ts[2..]);
      assert [':', QUOTE] == [':'] + [QUOTE];
      PrefixTail([QUOTE], tail, ':', rest[0]);
      if tail != [] {
        assert tail == [tail[0]] + tail[1..];
        PrefixTail([], tail[1..], QUOTE, tail[0]);
      }
      hide Behind, Render;
    }
  }

  lemma {:induction false} KeyEscaped(key: string)
    requires NoQuotes(key)
    ensures Escaped(key) == key
  {
    if key != [] {
      KeyEscaped(key[1..]);
      assert key == [key[0]] + key[1..];
    }
  }

  // ---------------------------------------------------------------- the two texts

  /** `ConnectionForm`. */
  datatype Form = Form(local: bool, path: string, bucket: string, prefix: string, region: string, branch: string,
                       access: string, secret: string, accessHeld: bool, secretHeld: bool, endpoint: string)

  /** The fields of the mount text, in order. */
  function MountFields(f: Form): seq<(string, string)> {
    if f.local then [("kind", "local"), ("path", f.path)]
    else RemoteFields(f) + (if f.endpoint == "" then [] else [("endpoint_url", f.endpoint)])
  }

  function RemoteFields(f: Form): seq<(string, string)> {
    [("kind", "s3"), ("bucket", f.bucket), ("prefix", f.prefix), ("region", f.region), ("branch", f.branch),
     ("access_key_id", if f.accessHeld then "" else f.access), ("secret_access_key", if f.secretHeld then "" else f.secret)]
  }

  function FieldTokens(f: (string, string)): seq<Token> {
    [Quoted(f.0), Plain(':'), Quoted(f.1)]
  }

  /** The fields of an object with commas between, its closing brace, and what follows it. */
  function ObjectTokens(fs: seq<(string, string)>, tail: seq<Token>): seq<Token> {
    if fs == [] then [Plain('}')] + tail
    else FieldTokens(fs[0]) + (if |fs| == 1 then [] else [Plain(',')]) + ObjectTokens(fs[1..], tail)
  }

  function MountTokens(f: Form, tail: seq<Token>): seq<Token> {
    [Plain('{')] + ObjectTokens(MountFields(f), tail)
  }

  function SessionHead(server: string, id: string): seq<Token> {
    [Plain('{')] + FieldTokens(("server_url", server)) + [Plain(',')] + FieldTokens(("building_id", id)) + [Plain(',')]
    + [Quoted("mount"), Plain(':')]
  }

  /** The session text: two fields, and the mount text as a third. */
  function SessionTokens(server: string, id: string, f: Form): seq<Token> {
    SessionHead(server, id) + MountTokens(f, [Plain('}')])
  }

  // ---------------------------------------------------------------- printing

  function FieldText(f: (string, string)): string {
    [QUOTE] + f.0 + [QUOTE, ':', QUOTE] + Escaped(f.1) + [QUOTE]
  }

  /** The fields with commas between. */
  function Joined(fs: seq<(string, string)>): string {
    if fs == [] then []
    else Joined(fs[..|fs| - 1]) + (if |fs| == 1 then "" else ",") + FieldText(fs[|fs| - 1])
  }

  /** One more field onto the text. */
  method AddField(j: string, key: string, value: string, ghost fs: seq<(string, string)>) returns (now: string)
    requires j == "{" + Joined(fs)
    ensures now == "{" + Joined(fs + [(key, value)])
  {
    var v := Escape(value);
    ghost var fs' := fs + [(key, value)];
    assert fs'[..|fs|] == fs;
    ghost var comma := if fs == [] then "" else ",";
    var body := [QUOTE] + key + [QUOTE, ':', QUOTE] + v + [QUOTE];
    assert Joined(fs') == Joined(fs) + comma + body;
    hide Joined, Escaped;
    Regroup("{", Joined(fs), comma);
    Regroup("{", Joined(fs) + comma, body);
    if |j| == 1 {
      EmptyJoined(fs);
      assert j + "" == j;
      now := j + body;
    } else {
      EmptyJoined(fs);
      now := j + "," + body;
    }
  }

  lemma EmptyJoined(fs: seq<(string, string)>)
    ensures Joined(fs) == [] <==> fs == []
  {
  }

  /** `build_mount_json`. */
  method BuildMountJson(f: Form) returns (j: string)
    ensures j == "{" + Joined(MountFields(f)) + "}"
  {
    hide Joined;
    if f.local {
      j := BuildLocal(f);
    } else {
      j := BuildRemote(f);
    }
    j := j + "}";
  }

  method BuildLocal(f: Form) returns (j: string)
    requires f.local
    ensures j == "{" + Joined(MountFields(f))
  {
    ghost var fs := MountFields(f);
    assert "{" + Joined([]) == "{";
    hide Joined;
    j := "{";
    j := AddField(j, "kind", "local", []);
    assert [] + [fs[0]] == fs[..1] && fs[..1] + [fs[1]] == fs;
    j := AddField(j, "path", f.path, fs[..1]);
  }

  method BuildRemote(f: Form) returns (j: string)
    requires !f.local
    ensures j == "{" + Joined(MountFields(f))
  {
    ghost var fs := RemoteFields(f);
    j := BuildPlace(f);
    hide Joined;
    assert fs[..5] + [fs[5]] == fs[..6] && fs[..6] + [fs[6]] == fs;
    j := AddField(j, "access_key_id", if f.accessHeld then "" else f.access, fs[..5]);
    j := AddField(j, "secret_access_key", if f.secretHeld then "" else f.secret, fs[..6]);
    if f.endpoint != "" {
      j := AddField(j, "endpoint_url", f.endpoint, fs);
    } else {
      assert fs + [] == fs;
    }
  }

  method BuildPlace(f: Form) returns (j: string)
    ensures j == "{" + Joined(RemoteFields(f)[..5])
  {
    ghost var fs := RemoteFields(f);
    assert "{" + Joined([]) == "{";
    hide Joined;
    assert forall k: nat :: k < 5 ==> fs[..k] + [fs[k]] == fs[..k + 1];
    assert fs[0] == ("kind", "s3") && fs[1] == ("bucket", f.bucket) && fs[2] == ("prefix", f.prefix);
    assert fs[3] == ("region", f.region) && fs[4] == ("branch", f.branch) && |fs| == 7;
    hide RemoteFields;
    j := "{";
    j := AddField(j, "kind", "s3", fs[..0]);
    j := AddField(j, "bucket", f.bucket, fs[..1]);
    j := AddField(j, "prefix", f.prefix, fs[..2]);
    j := AddField(j, "region", f.region, fs[..3]);
    j := AddField(j, "branch", f.branch, fs[..4]);
  }

  lemma {:induction false} RenderAppend(ts: seq<Token>, us: seq<Token>)
    ensures Render(ts + us) == Render(ts) + Render(us)
    decreases |ts|
  {
    if ts == [] {
      assert ts + us == us;
    } else {
      assert (ts + us)[1..] == ts[1..] + us;
      RenderAppend(ts[1..], us);
      hide Escaped;
      var head := if ts[0].Plain? then [ts[0].c] else [QUOTE] + Escaped(ts[0].s) + [QUOTE];
      Regroup(head, Render(ts[1..]), Render(us));
    }
  }

  lemma RenderField(f: (string, string))
    requires NoQuotes(f.0)
    ensures Render(FieldTokens(f)) == FieldText(f)
  {
    KeyEscaped(f.0);
    var ts := FieldTokens(f);
    assert ts[1..] == [Plain(':'), Quoted(f.1)] && ts[1..][1..] == [Quoted(f.1)] && ts[1..][1..][1..] == [];
    assert Render(ts[1..][1..]) == [QUOTE] + Escaped(f.1) + [QUOTE] + [];
    hide Escaped;
  }

  /** Prepending a field to joined ones. */
  lemma {:induction false} JoinedHead(fs: seq<(string, string)>)
    requires fs != []
    ensures Joined(fs) == FieldText(fs[0]) + (if |fs| == 1 then "" else ",") + Joined(fs[1..])
  {
    hide FieldText;
    var rest := fs[1..];
    if |fs| == 1 {
      assert fs[..0] == [];
    } else {
      var init, last := fs[..|fs| - 1], FieldText(fs[|fs| - 1]);
      JoinedHead(init);
      assert init[1..] == rest[..|rest| - 1];
      var c0 := if |init| == 1 then "" else ",";
      var c1 := if |rest| == 1 then "" else ",";
      assert Joined(fs) == (FieldText(fs[0]) + c0 + Joined(init[1..])) + "," + last;
      assert Joined(rest) == Joined(init[1..]) + c1 + last;
      if |init| == 1 {
        assert Joined(init[1..]) == "";
      }
      Shuffle(FieldText(fs[0]), c0, Joined(init[1..]), c1, last);
    }
  }

  lemma Shuffle(a: string, c0: string, b: string, c1: string, l: string)
    requires c0 == c1 && (c0 == "," || (c0 == "" && b == ""))
    ensures (a + c0 + b) + "," + l == a + "," + (b + c1 + l)
  {
  }

  ghost predicate PlainKeys(fs: seq<(string, string)>) {
    forall i :: 0 <= i < |fs| ==> Key(fs[i].0)
  }

  lemma {:induction false} RenderObject(fs: seq<(string, string)>, tail: seq<Token>)
    requires PlainKeys(fs)
    ensures Render(ObjectTokens(fs, tail)) == Joined(fs) + "}" + Render(tail)
    decreases |fs|
  {
    if fs == [] {
      assert ([Plain('}')] + tail)[1..] == tail;
    } else {
      var rest := fs[1..];
      assert PlainKeys(rest);
      RenderObject(rest, tail);
      JoinedHead(fs);
      RenderField(fs[0]);
      var comma := if |fs| == 1 then [] else [Plain(',')];
      RenderAppend(FieldTokens(fs[0]) + comma, ObjectTokens(rest, tail));
      RenderAppend(FieldTokens(fs[0]), comma);
      RenderComma(|fs| == 1);
      hide Joined, FieldText, Render, FieldTokens, PlainKeys;
      Regroup4(FieldText(fs[0]), if |fs| == 1 then "" else ",", Joined(rest), "}", Render(tail));
    }
  }

  lemma Regroup4(a: string, b: string, c: string, d: string, e: string)
    ensures (a + b) + (c + d + e) == (a + b + c) + d + e
  {
  }

  lemma RenderComma(none: bool)
    ensures Render(if none then [] else [Plain(',')]) == if none then "" else ","
  {
    assert [Plain(',')][1..] == [];
  }

  // ---------------------------------------------------------------- every field comes back

  /** Two keys that differ in length or in one of their first two letters. */
  function Mark(key: string): (nat, char, char) {
    (|key|, if |key| > 0 then key[0] else ' ', if |key| > 1 then key[1] else ' ')
  }

  ghost predicate Marked(fs: seq<(string, string)>) {
    forall i, j :: 0 <= i < j < |fs| ==> Mark(fs[i].0) != Mark(fs[j].0)
  }

  lemma {:induction false} ObjectWellFormed(fs: seq<(string, string)>, tail: seq<Token>)
    requires PlainKeys(fs) && WellFormed(tail)
    ensures WellFormed(ObjectTokens(fs, tail))
    decreases |fs|
  {
    if fs == [] {
      assert ([Plain('}')] + tail)[1..] == tail;
    } else {
      assert PlainKeys(fs[1..]) && Key(fs[0].0);
      ObjectWellFormed(fs[1..], tail);
      var rest := ObjectTokens(fs[1..], tail);
      hide Key, PlainKeys;
      ObjectStarts(fs[1..], tail);
      FieldWellFormed(fs[0], rest, |fs| == 1);
    }
  }

  lemma ObjectStarts(fs: seq<(string, string)>, tail: seq<Token>)
    ensures ObjectTokens(fs, tail) != [] && (fs == [] ==> ObjectTokens(fs, tail)[0] == Plain('}'))
  {
  }

  lemma FieldWellFormed(f: (string, string), rest: seq<Token>, last: bool)
    requires Key(f.0) && WellFormed(rest) && rest != [] && (last ==> rest[0] == Plain('}'))
    ensures WellFormed(FieldTokens(f) + (if last then [] else [Plain(',')]) + rest)
  {
    hide Key;
    var r := (if last then [] else [Plain(',')]) + rest;
    assert r == if last then rest else [Plain(',')] + rest;
    if !last { assert r[1..] == rest; }
    var ts := FieldTokens(f) + r;
    assert ts[1..][1..][1..] == r && ts[1..][0] == Plain(':') && ts[1..][1..][0] == Quoted(f.1);
    assert ts == FieldTokens(f) + (if last then [] else [Plain(',')]) + rest;
    assert WellFormed(ts[1..][1..]);
    assert WellFormed(ts[1..]);
  }

  /** The field of a key in an object is the value printed under it. */
  lemma {:induction false} ObjectField(fs: seq<(string, string)>, tail: seq<Token>, i: nat)
    requires i < |fs| && Marked(fs)
    ensures Field(ObjectTokens(fs, tail), fs[i].0) == Some(fs[i].1)
    decreases |fs|
  {
    var rest := (if |fs| == 1 then [] else [Plain(',')]) + ObjectTokens(fs[1..], tail);
    assert ObjectTokens(fs, tail) == FieldTokens(fs[0]) + rest;
    FieldHead(fs[0], rest, fs[i].0);
    if i > 0 {
      assert Mark(fs[0].0) != Mark(fs[i].0);
      ObjectField(fs[1..], tail, i - 1);
      assert rest[0] == Plain(',') && rest[1..] == ObjectTokens(fs[1..], tail);
    }
  }

  lemma FieldHead(f: (string, string), rest: seq<Token>, key: string)
    requires rest == [] || rest[0] != Plain(':')
    ensures Field(FieldTokens(f) + rest, key) == if f.0 == key then Some(f.1) else Field(rest, key)
  {
    var ts := FieldTokens(f) + rest;
    assert ts[1..][1..][1..] == rest && ts[1..][0] == Plain(':') && ts[1..][1..][0] == Quoted(f.1);
    assert ts[2] == Quoted(f.1);
    assert Field(ts[1..][1..], key) == Field(rest, key);
    assert Field(ts[1..], key) == Field(ts[1..][1..], key);
  }

  lemma PlaceKeys()
    ensures Key("kind") && Key("path") && Key("bucket") && Key("prefix") && Key("region") && Key("branch")
    ensures Mark("kind") == (4, 'k', 'i') && Mark("path") == (4, 'p', 'a')
    ensures Mark("bucket") == (6, 'b', 'u') && Mark("prefix") == (6, 'p', 'r')
    ensures Mark("region") == (6, 'r', 'e') && Mark("branch") == (6, 'b', 'r')
  {
  }

  lemma AccessKeys()
    ensures Key("access_key_id") && Key("secret_access_key") && Key("endpoint_url")
    ensures Mark("access_key_id") == (13, 'a', 'c') && Mark("secret_access_key") == (17, 's', 'e')
    ensures Mark("endpoint_url") == (12, 'e', 'n')
  {
  }

  lemma MountKeys(f: Form)
    ensures PlainKeys(MountFields(f)) && Marked(MountFields(f))
  {
    hide Mark, Key;
    PlaceKeys();
    AccessKeys();
  }

  /** For all values of the form, every field of the printed mount text is read back as printed. */
  lemma MountBack(f: Form, i: nat)
    requires i < |MountFields(f)|
    ensures Extracted("{" + Joined(MountFields(f)) + "}", MountFields(f)[i].0) == MountFields(f)[i].1
  {
    var fs, key := MountFields(f), MountFields(f)[i].0;
    MountKeys(f);
    assert Key(key);
    MountText(f, []);
    assert Render([]) == "" && "{" + Joined(fs) + "}" + "" == "{" + Joined(fs) + "}";
    hide Joined, Key, MountFields, Render;
    FieldFound(MountTokens(f, []), key);
  }

  /** The mount text within any text: how it prints, and what its fields are. */
  lemma MountText(f: Form, tail: seq<Token>)
    requires WellFormed(tail)
    ensures Render(MountTokens(f, tail)) == "{" + Joined(MountFields(f)) + "}" + Render(tail)
    ensures WellFormed(MountTokens(f, tail))
    ensures forall i :: 0 <= i < |MountFields(f)| ==> Field(MountTokens(f, tail), MountFields(f)[i].0) == Some(MountFields(f)[i].1)
  {
    var fs := MountFields(f);
    MountKeys(f);
    hide MountFields, Joined, Key;
    var ts := ObjectTokens(fs, tail);
    RenderObject(fs, tail);
    ObjectWellFormed(fs, tail);
    assert ([Plain('{')] + ts)[1..] == ts;
    forall i | 0 <= i < |fs| ensures Field(MountTokens(f, tail), fs[i].0) == Some(fs[i].1) {
      ObjectField(fs, tail, i);
    }
    hide ObjectTokens;
    assert Render([Plain('{')] + ts) == "{" + Render(ts);
  }

  // ---------------------------------------------------------------- the session

  /** `save_session`. */
  method SessionJson(server: string, id: string, f: Form) returns (j: string)
    ensures j == SessionText(server, id, f)
  {
    var cfg := BuildMountJson(f);
    hide Joined, Escaped, MountFields;
    var escServer := Escape(server);
    var escId := Escape(id);
    j := "{" + ([QUOTE] + "server_url" + [QUOTE, ':', QUOTE] + escServer + [QUOTE])
         + "," + ([QUOTE] + "building_id" + [QUOTE, ':', QUOTE] + escId + [QUOTE])
         + "," + ([QUOTE] + "mount" + [QUOTE, ':']) + cfg + "}";
  }

  function MountHead(): string {
    [QUOTE] + "mount" + [QUOTE, ':']
  }

  /** Two fields, then the mount text under its key. */
  function SessionText(server: string, id: string, f: Form): string {
    "{" + FieldText(("server_url", server)) + "," + FieldText(("building_id", id)) + "," + MountHead()
    + ("{" + Joined(MountFields(f)) + "}") + "}"
  }

  lemma SessionKeys()
    ensures Key("server_url") && Key("building_id") && Key("mount")
    ensures Mark("server_url") == (10, 's', 'e') && Mark("building_id") == (11, 'b', 'u') && Mark("mount") == (5, 'm', 'o')
  {
  }

  lemma RenderPlain(c: char, ts: seq<Token>)
    ensures Render([Plain(c)] + ts) == [c] + Render(ts)
  {
    assert ([Plain(c)] + ts)[1..] == ts;
  }

  /** The tokens behind the opening brace. */
  function SessionRest(server: string, id: string, ts: seq<Token>): seq<Token> {
    FieldTokens(("server_url", server)) + ([Plain(',')] + (FieldTokens(("building_id", id)) + ([Plain(',')] + ([Quoted("mount"), Plain(':')] + ts))))
  }

  lemma SessionIs(server: string, id: string, f: Form)
    ensures SessionTokens(server, id, f) == [Plain('{')] + SessionRest(server, id, MountTokens(f, [Plain('}')]))
  {
    hide MountTokens;
  }

  lemma RenderTwo(a: seq<Token>, b: seq<Token>, m: seq<Token>)
    ensures Render([Plain('{')] + (a + ([Plain(',')] + (b + ([Plain(',')] + m)))))
         == "{" + (Render(a) + ("," + (Render(b) + ("," + Render(m)))))
  {
    RenderAppend(b, [Plain(',')] + m);
    RenderAppend(a, [Plain(',')] + (b + ([Plain(',')] + m)));
    RenderPlain(',', m);
    RenderPlain(',', b + ([Plain(',')] + m));
    RenderPlain('{', a + ([Plain(',')] + (b + ([Plain(',')] + m))));
    hide Render;
  }

  lemma GroupText(a: string, b: string, m: string, c: string)
    ensures "{" + (a + ("," + (b + ("," + (m + (c + "}")))))) == "{" + a + "," + b + "," + m + c + "}"
  {
  }

  lemma RenderMount(ts: seq<Token>)
    requires Escaped("mount") == "mount"
    ensures Render([Quoted("mount"), Plain(':')] + ts) == MountHead() + Render(ts)
  {
    var all := [Quoted("mount"), Plain(':')] + ts;
    assert all[1..] == [Plain(':')] + ts;
    RenderPlain(':', ts);
    hide Escaped;
    Regroup([QUOTE] + "mount" + [QUOTE], [':'], Render(ts));
    assert [QUOTE] + "mount" + [QUOTE] + [':'] == [QUOTE] + "mount" + [QUOTE, ':'];
  }

  lemma SessionRenders(server: string, id: string, f: Form)
    ensures Render(SessionTokens(server, id, f)) == SessionText(server, id, f)
  {
    var ts := MountTokens(f, [Plain('}')]);
    SessionIs(server, id, f);
    SessionKeys();
    KeyEscaped("mount");
    MountText(f, [Plain('}')]);
    RenderField(("server_url", server));
    RenderField(("building_id", id));
    assert Render([Plain('}')]) == "}";
    hide MountTokens, Joined, MountFields, FieldText, FieldTokens, Key, Mark, SessionTokens, Render, Escaped, MountHead;
    RenderMount(ts);
    RenderTwo(FieldTokens(("server_url", server)), FieldTokens(("building_id", id)), [Quoted("mount"), Plain(':')] + ts);
    GroupText(FieldText(("server_url", server)), FieldText(("building_id", id)), MountHead(),
              "{" + Joined(MountFields(f)) + "}");
  }

  lemma TwoWellFormed(f: (string, string), g: (string, string), m: seq<Token>)
    requires Key(f.0) && Key(g.0) && WellFormed(m) && m != []
    ensures WellFormed([Plain('{')] + (FieldTokens(f) + ([Plain(',')] + (FieldTokens(g) + ([Plain(',')] + m)))))
  {
    hide Key;
    FieldWellFormed(g, m, false);
    var b := FieldTokens(g) + [Plain(',')] + m;
    FieldWellFormed(f, b, false);
    var a := FieldTokens(f) + [Plain(',')] + b;
    assert ([Plain('{')] + a)[1..] == a;
    assert a == FieldTokens(f) + ([Plain(',')] + (FieldTokens(g) + ([Plain(',')] + m)));
  }

  lemma MountWellFormed(ts: seq<Token>)
    requires Key("mount") && WellFormed(ts)
    ensures WellFormed([Quoted("mount"), Plain(':')] + ts)
  {
    hide Key;
    var m := [Quoted("mount"), Plain(':')] + ts;
    assert m[1..] == [Plain(':')] + ts && m[1..][1..] == ts;
  }

  lemma SessionWellFormed(server: string, id: string, f: Form)
    ensures WellFormed(SessionTokens(server, id, f))
  {
    var ts := MountTokens(f, [Plain('}')]);
    SessionIs(server, id, f);
    SessionKeys();
    assert WellFormed([Plain('}')]);
    MountText(f, [Plain('}')]);
    hide MountTokens, Joined, MountFields, Key, Mark, SessionTokens, Render, Field, WellFormed, FieldTokens;
    MountWellFormed(ts);
    TwoWellFormed(("server_url", server), ("building_id", id), [Quoted("mount"), Plain(':')] + ts);
  }

  /** The search passes over the two fields in front and the mount's own key. */
  lemma SessionField(server: string, id: string, ts: seq<Token>, key: string)
    requires ts != [] && ts[0] == Plain('{')
    ensures Field([Plain('{')] + SessionRest(server, id, ts), key)
         == if key == "server_url" then Some(server) else if key == "building_id" then Some(id) else Field(ts, key)
  {
    var m := [Quoted("mount"), Plain(':')] + ts;
    assert m[1..] == [Plain(':')] + ts && m[1..][1..] == ts;
    assert Field(m, key) == Field(ts, key);
    var cm := [Plain(',')] + m;
    assert cm[1..] == m;
    FieldHead(("building_id", id), cm, key);
    var b := FieldTokens(("building_id", id)) + cm;
    var cb := [Plain(',')] + b;
    assert cb[1..] == b;
    FieldHead(("server_url", server), cb, key);
    var a := FieldTokens(("server_url", server)) + cb;
    assert ([Plain('{')] + a)[1..] == a;
    hide FieldTokens;
  }

  /** For all session and form values, both session fields and every field of the mount text inside
      are read back as printed. */
  lemma SessionBack(server: string, id: string, f: Form)
    ensures Extracted(SessionText(server, id, f), "server_url") == server
    ensures Extracted(SessionText(server, id, f), "building_id") == id
    ensures forall i :: 0 <= i < |MountFields(f)| ==> Extracted(SessionText(server, id, f), MountFields(f)[i].0) == MountFields(f)[i].1
  {
    hide Joined, Key, Mark, SessionTokens, Render, Field, SessionText, Extracted, SessionRest, MountFields;
    SessionKeys();
    SessionOne(server, id, f, "server_url");
    SessionOne(server, id, f, "building_id");
    forall i | 0 <= i < |MountFields(f)| ensures Extracted(SessionText(server, id, f), MountFields(f)[i].0) == MountFields(f)[i].1 {
      MountKeyApart(f, i);
      MountFieldIs(f, i);
      SessionOne(server, id, f, MountFields(f)[i].0);
    }
  }

  lemma MountFieldIs(f: Form, i: nat)
    requires i < |MountFields(f)|
    ensures Field(MountTokens(f, [Plain('}')]), MountFields(f)[i].0) == Some(MountFields(f)[i].1)
  {
    assert WellFormed([Plain('}')]);
    MountText(f, [Plain('}')]);
  }

  lemma SessionOne(server: string, id: string, f: Form, key: string)
    requires Key(key)
    ensures var v := if key == "server_url" then Some(server) else if key == "building_id" then Some(id) else Field(MountTokens(f, [Plain('}')]), key);
            Extracted(SessionText(server, id, f), key) == if v.Some? then v.value else ""
  {
    MountStarts(f);
    SessionIs(server, id, f);
    SessionRenders(server, id, f);
    SessionWellFormed(server, id, f);
    hide Key, SessionTokens, Render, Field, SessionText, Extracted, SessionRest, MountTokens;
    SessionField(server, id, MountTokens(f, [Plain('}')]), key);
    FieldFound(SessionTokens(server, id, f), key);
  }

  lemma MountStarts(f: Form)
    ensures var ts := MountTokens(f, [Plain('}')]); ts != [] && ts[0] == Plain('{')
  {
  }

  lemma MountKeyApart(f: Form, i: nat)
    requires i < |MountFields(f)|
    ensures var key := MountFields(f)[i].0; Key(key) && key != "server_url" && key != "building_id"
  {
    MountKeys(f);
    PlaceKeys();
    AccessKeys();
    SessionKeys();
    hide Mark, Key;
  }
}
