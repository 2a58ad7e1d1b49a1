/** Where a map's images sit in its bundle, after `entry_for` in `model/map_bundle.cpp` and
    `asset_path_is_portable` in `model/asset_paths.cpp`. */
module BundlePaths {
  const MANIFEST := "manifest.json"
  const EXTERNAL := "_external/"

  // ---------------------------------------------------------------- portable paths

  /** The parts between the slashes; leading, trailing and doubled slashes leave empty ones. */
  function Parts(path: string): (r: seq<string>)
    ensures r != []
  {
    if path == [] then [[]]
    else
      var init := Parts(path[..|path| - 1]);
      if path[|path| - 1] == '/' then init + [[]]
      else init[|init| - 1 := init[|init| - 1] + [path[|path| - 1]]]
  }

  /** How deep below the start the path is after its first parts; `None` once it has been above. */
  datatype Depth = Above | Below(n: nat)

  function DepthOf(parts: seq<string>): Depth {
    if parts == [] then Below(0)
    else
      var d, part := DepthOf(parts[..|parts| - 1]), parts[|parts| - 1];
      if d.Above? then Above
      else if part == ".." then if d.n == 0 then Above else Below(d.n - 1)
      else if part == "." || part == "" then d
      else Below(d.n + 1)
  }

  /** `asset_path_is_portable`, as a property: not absolute, and never above where it starts. */
  predicate Portable(path: string) {
    path == [] || (path[0] != '/' && DepthOf(Parts(path)).Below?)
  }

  method IsPortable(path: string) returns (ok: bool)
    ensures ok == Portable(path)
  {
    if path == [] { return true; }
    if path[0] == '/' { return false; }
    var parts := Parts(path);
    var depth: int := 0;
    for k := 0 to |parts|
      invariant depth >= 0 && DepthOf(parts[..k]) == Below(depth)
    {
      assert parts[..k + 1][..k] == parts[..k];
      var part := parts[k];
      if part == ".." {
        depth := depth - 1;
        if depth < 0 {
          StaysAbove(parts, k + 1);
          return false;
        }
      } else if part != "." && part != "" {
        depth := depth + 1;
      }
    }
    assert parts[..|parts|] == parts;
    return true;
  }

  lemma {:induction false} StaysAbove(parts: seq<string>, k: nat)
    requires k <= |parts| && DepthOf(parts[..k]).Above?
    ensures DepthOf(parts).Above?
    decreases |parts|
  {
    if k < |parts| {
      assert parts[..|parts| - 1][..k] == parts[..k];
      StaysAbove(parts[..|parts| - 1], k);
    } else {
      assert parts[..k] == parts;
    }
  }

  /** The parts with a slash between every two. */
  function Joined(parts: seq<string>): string {
    if parts == [] then []
    else if |parts| == 1 then parts[0]
    else Joined(parts[..|parts| - 1]) + "/" + parts[|parts| - 1]
  }

  /** The parts are the path cut at its slashes: joined they give it back, and none holds a slash. */
  lemma {:induction false} PartsJoin(path: string)
    ensures Joined(Parts(path)) == path && forall k :: 0 <= k < |Parts(path)| ==> '/' !in Parts(path)[k]
  {
    if path != [] {
      var init, c := Parts(path[..|path| - 1]), path[|path| - 1];
      PartsJoin(path[..|path| - 1]);
      assert path == path[..|path| - 1] + [c];
      if c == '/' {
        assert (init + [[]])[..|init|] == init;
        assert Joined(init + [[]]) == Joined(init) + "/" + [];
      } else {
        JoinedMore(init, c);
      }
    }
  }

  lemma JoinedMore(parts: seq<string>, c: char)
    requires parts != []
    ensures var n := |parts| - 1; Joined(parts[n := parts[n] + [c]]) == Joined(parts) + [c]
  {
    var n := |parts| - 1;
    assert parts[n := parts[n] + [c]][..n] == parts[..n];
  }

  /** How many of the parts go up, and how many go down into a directory or name a file. */
  function Ups(parts: seq<string>): nat {
    if parts == [] then 0 else Ups(parts[..|parts| - 1]) + (if parts[|parts| - 1] == ".." then 1 else 0)
  }

  function Downs(parts: seq<string>): nat {
    if parts == [] then 0
    else Downs(parts[..|parts| - 1]) + (if parts[|parts| - 1] in {"", ".", ".."} then 0 else 1)
  }

  /** The depth counter stays up exactly when no first part of the path goes up more often than down. */
  lemma {:induction false} DepthBalances(parts: seq<string>)
    ensures DepthOf(parts).Below? <==> forall k :: 0 <= k <= |parts| ==> Ups(parts[..k]) <= Downs(parts[..k])
    ensures DepthOf(parts).Below? ==> DepthOf(parts).n == Downs(parts) - Ups(parts)
  {
    assert parts[..|parts|] == parts;
    if parts != [] {
      var init := parts[..|parts| - 1];
      DepthBalances(init);
      assert forall k :: 0 <= k <= |init| ==> init[..k] == parts[..k];
      assert forall k :: 0 <= k <= |parts| ==> k <= |init| || parts[..k] == parts;
      hide Ups, Downs;
      assert Ups(parts) == Ups(init) + (if parts[|init|] == ".." then 1 else 0) by { UpsLast(parts); }
      assert Downs(parts) == Downs(init) + (if parts[|init|] in {"", ".", ".."} then 0 else 1) by { UpsLast(parts); }
    } else {
      UpsNone();
    }
  }

  lemma UpsNone()
    ensures Ups([]) == 0 == Downs([])
  {
  }

  lemma UpsLast(parts: seq<string>)
    requires parts != []
    ensures Ups(parts) == Ups(parts[..|parts| - 1]) + (if parts[|parts| - 1] == ".." then 1 else 0)
    ensures Downs(parts) == Downs(parts[..|parts| - 1]) + (if parts[|parts| - 1] in {"", ".", ".."} then 0 else 1)
  {
  }

  /** `entry_name_is_safe`. */
  predicate Safe(name: string) {
    && name != [] && |name| <= 1024 && name[0] != '/' && '\\' !in name
    && (|name| >= 2 ==> name[1] != ':') && Portable(name)
  }

  // ---------------------------------------------------------------- entries

  function Digit(n: nat): char
    requires n < 10
  {
    ['0', '1', '2', '3', '4', '5', '6', '7', '8', '9'][n]
  }

  function Decimal(n: nat): (s: string)
    ensures s != [] && '_' !in s && '/' !in s
  {
    (if n < 10 then [] else Decimal(n / 10)) + [Digit(n % 10)]
  }

  lemma DigitInjective(m: nat, n: nat)
    requires m < 10 && n < 10 && Digit(m) == Digit(n)
    ensures m == n
  {
  }

  lemma {:induction false} DecimalInjective(m: nat, n: nat)
    requires Decimal(m) == Decimal(n)
    ensures m == n
    decreases m
  {
    hide Digit;
    var s, t := Decimal(m), Decimal(n);
    assert s[|s| - 1] == Digit(m % 10) && t[|t| - 1] == Digit(n % 10);
    DigitInjective(m % 10, n % 10);
    assert s[..|s| - 1] == (if m < 10 then [] else Decimal(m / 10));
    assert t[..|t| - 1] == (if n < 10 then [] else Decimal(n / 10));
    if m >= 10 && n >= 10 {
      DecimalInjective(m / 10, n / 10);
    }
  }

  /** What follows the last slash, `asset` if nothing does. */
  function Basename(path: string): (r: string)
    ensures r != []
  {
    var parts := Parts(path);
    if parts[|parts| - 1] == [] then "asset" else parts[|parts| - 1]
  }

  predicate Collides(path: string, yaml: string) {
    path == MANIFEST || path == yaml || EXTERNAL <= path
  }

  /** Whether an image keeps its own path as its entry. */
  predicate OwnPath(path: string, yaml: string) {
    Portable(path) && !Collides(path, yaml)
  }

  function Flat(path: string, seq_: nat): string {
    EXTERNAL + Decimal(seq_) + "_" + Basename(path)
  }

  lemma ShorterDiffers(a: string, x: string, b: string, y: string)
    requires |a| < |b| && '_' !in b
    ensures EXTERNAL + a + "_" + x != EXTERNAL + b + "_" + y
  {
    var s, t := EXTERNAL + a + "_" + x, EXTERNAL + b + "_" + y;
    assert s[|EXTERNAL| + |a|] == '_';
    assert t[|EXTERNAL| + |a|] == b[|a|];
  }

  /** Two numbers give two entries, whatever the paths. */
  lemma FlatDistinct(p: string, q: string, m: nat, n: nat)
    requires m != n
    ensures Flat(p, m) != Flat(q, n)
  {
    hide Basename, Decimal;
    var a, b := Decimal(m), Decimal(n);
    if |a| < |b| {
      ShorterDiffers(a, Basename(p), b, Basename(q));
    } else if |b| < |a| {
      ShorterDiffers(b, Basename(q), a, Basename(p));
    } else if Flat(p, m) == Flat(q, n) {
      assert a == Flat(p, m)[|EXTERNAL|..|EXTERNAL| + |a|];
      assert b == Flat(q, n)[|EXTERNAL|..|EXTERNAL| + |b|];
      DecimalInjective(m, n);
    }
  }

  lemma FlatExternal(p: string, n: nat)
    ensures EXTERNAL <= Flat(p, n)
  {
  }

  lemma {:induction false} LastPart(x: string, y: string)
    requires '/' !in y
    ensures var parts := Parts(x + "/" + y); parts[|parts| - 1] == y
    decreases |y|
  {
    var path := x + "/" + y;
    if y == [] {
      assert path[..|path| - 1] == x;
    } else {
      var init := y[..|y| - 1];
      assert path[..|path| - 1] == x + "/" + init;
      LastPart(x, init);
      assert y[|y| - 1] in y && y == init + [y[|y| - 1]];
    }
  }

  /** A numbered entry is never the path it stands for. */
  lemma FlatMoves(path: string, n: nat)
    ensures Flat(path, n) != path
  {
    PartsJoin(path);
    var rest := Decimal(n) + "_" + Basename(path);
    assert EXTERNAL == "_external" + "/";
    assert Flat(path, n) == "_external" + "/" + rest;
    LastPart("_external", rest);
  }
}
