/** YAML node trees and the keyed access `model/yaml_io.cpp` makes to them. */
module YamlTree {
  datatype Option<+T> = None | Some(value: T)
  datatype Result<+T> = Ok(value: T) | Err

  /** A mapping's key: the strings the code knows by name, and any other. */
  datatype Key =
    | Name | CoordinateSystem | ReferenceLevelName | Levels
    | Elevation | Drawing | Vertices | Lanes | Walls | Doors | Measurements | Floors | Fiducials | Layers
    | Parameters | Holes | Filename | Visible | Color | Transform | Scale | Yaw | TranslationX | TranslationY
    | Other(text: string)

  type Int32 = i: int | -0x8000_0000 <= i < 0x8000_0000

  /** A double by its 64 bits.  Of the codes that mean no number there is one, the one that reading gives. */
  type Double = b: nat | b < 0x1_0000_0000_0000_0000 &&
    (b % 0x8000_0000_0000_0000 > 0x7ff0_0000_0000_0000 ==> b == 0x7ff8_0000_0000_0000)

  const ZERO: Double := 0
  const HALF: Double := 0x3fe0_0000_0000_0000
  const ONE: Double := 0x3ff0_0000_0000_0000

  datatype Node = Null | Scalar(text: string) | Seq(items: seq<Node>) | Map(entries: Entries)

  /** A mapping as the library holds it: in order, and a loaded one may repeat a key. */
  type Entries = seq<(Key, Node)>

  /** The text of numbers and truth values, and the order of an ordered map's keys, of which only
      their laws are known. */
  datatype Scalars = Scalars(
    showInt: Int32 -> string, readInt: string -> Option<Int32>,
    showDouble: Double -> string, readDouble: string -> Option<Double>,
    showBool: bool -> string, readBool: string -> Option<bool>,
    before: (Key, Key) -> bool)

  ghost predicate Lawful(sc: Scalars) {
    && (forall i: Int32 :: sc.readInt(sc.showInt(i)) == Some(i))
    && (forall d: Double :: sc.readDouble(sc.showDouble(d)) == Some(d))
    && (forall b: bool :: sc.readBool(sc.showBool(b)) == Some(b))
    && (forall j: Key, k: Key :: sc.before(j, k) ==> !sc.before(k, j) && j != k)
    && (forall j: Key, k: Key :: j != k ==> sc.before(j, k) || sc.before(k, j))
    && (forall j: Key, k: Key, l: Key :: sc.before(j, k) && sc.before(k, l) ==> sc.before(j, l))
  }

  // ---------------------------------------------------------------- keyed access

  /** `n[k]`: the first entry of the key. */
  function Get<T>(es: seq<(Key, T)>, k: Key): Option<T> {
    if es == [] then None else if es[0].0 == k then Some(es[0].1) else Get(es[1..], k)
  }

  /** `n[k] = v`: over the first entry of the key, else a new one at the end. */
  function Set<T>(es: seq<(Key, T)>, k: Key, v: T): (r: seq<(Key, T)>)
    ensures r != []
  {
    if es == [] then [(k, v)]
    else if es[0].0 == k then [(k, v)] + es[1..]
    else [es[0]] + Set(es[1..], k, v)
  }

  /** One assignment after another, from nothing. */
  function SetAll<T>(kvs: seq<(Key, T)>): seq<(Key, T)> {
    if kvs == [] then [] else Set(SetAll(kvs[..|kvs| - 1]), kvs[|kvs| - 1].0, kvs[|kvs| - 1].1)
  }

  ghost predicate Unique<T>(es: seq<(Key, T)>) {
    forall i, j :: 0 <= i < j < |es| ==> es[i].0 != es[j].0
  }

  ghost predicate Lacks<T>(es: seq<(Key, T)>, k: Key) {
    forall i :: 0 <= i < |es| ==> es[i].0 != k
  }

  lemma GetFirst<T>(e: (Key, T), es: seq<(Key, T)>, j: Key)
    ensures Get([e] + es, j) == if e.0 == j then Some(e.1) else Get(es, j)
  {
    assert ([e] + es)[1..] == es;
  }

  lemma {:induction false} GetSet<T>(es: seq<(Key, T)>, k: Key, v: T, j: Key)
    ensures Get(Set(es, k, v), j) == if j == k then Some(v) else Get(es, j)
    decreases |es|
  {
    SetStep(es, k, v);
    GetStep(es, j);
    GetStep([(k, v)], j);
    hide Get, Set;
    if es != [] {
      GetFirst((k, v), es[1..], j);
      GetSet(es[1..], k, v, j);
      GetFirst(es[0], Set(es[1..], k, v), j);
    }
  }

  lemma SetStep<T>(es: seq<(Key, T)>, k: Key, v: T)
    ensures Set(es, k, v) == if es == [] then [(k, v)] else if es[0].0 == k then [(k, v)] + es[1..] else [es[0]] + Set(es[1..], k, v)
  {
  }

  lemma GetStep<T>(es: seq<(Key, T)>, j: Key)
    ensures es == [] ==> Get(es, j) == None
    ensures es != [] ==> Get(es, j) == if es[0].0 == j then Some(es[0].1) else Get(es[1..], j)
    ensures |es| == 1 ==> es[1..] == [] && Get(es[1..], j) == None
  {
  }

  lemma {:induction false} GetLacks<T>(es: seq<(Key, T)>, k: Key)
    ensures Get(es, k) == None <==> Lacks(es, k)
    decreases |es|
  {
    if es != [] && es[0].0 != k {
      GetLacks(es[1..], k);
      if Lacks(es[1..], k) {
        forall i | 0 <= i < |es| ensures es[i].0 != k {
          if i > 0 { assert es[i] == es[1..][i - 1]; }
        }
      }
    }
  }

  lemma {:induction false} SetNew<T>(es: seq<(Key, T)>, k: Key, v: T)
    requires Lacks(es, k)
    ensures Set(es, k, v) == es + [(k, v)]
    decreases |es|
  {
    if es != [] {
      SetNew(es[1..], k, v);
      assert es == [es[0]] + es[1..];
    }
  }

  /** The keys after an assignment: the same in their places, or one more at the end. */
  lemma {:induction false} SetKeys<T>(es: seq<(Key, T)>, k: Key, v: T)
    ensures var r := Set(es, k, v);
            && |es| <= |r| <= |es| + 1 && (forall i :: 0 <= i < |es| ==> r[i].0 == es[i].0)
            && (|r| == |es| ==> !Lacks(es, k)) && (|r| > |es| ==> Lacks(es, k) && r[|es|] == (k, v))
            && (forall i :: 0 <= i < |es| ==> r[i] == es[i] || (es[i].0 == k && r[i] == (k, v)))
    decreases |es|
  {
    if es != [] && es[0].0 != k {
      SetKeys(es[1..], k, v);
      var r, s := Set(es, k, v), Set(es[1..], k, v);
      forall i | 0 <= i < |es| ensures r[i].0 == es[i].0 && (r[i] == es[i] || (es[i].0 == k && r[i] == (k, v))) {
        if i > 0 { assert r[i] == s[i - 1] && es[i] == es[1..][i - 1]; }
      }
      if |s| == |es[1..]| {
        var i :| 0 <= i < |es[1..]| && es[1..][i].0 == k;
        assert es[i + 1].0 == k;
      } else {
        assert r[|es|] == s[|es| - 1];
      }
    }
  }

  lemma SetUnique<T>(es: seq<(Key, T)>, k: Key, v: T)
    requires Unique(es)
    ensures Unique(Set(es, k, v))
  {
    SetKeys(es, k, v);
  }

  lemma {:induction false} SetAllUnique<T>(kvs: seq<(Key, T)>)
    ensures Unique(SetAll(kvs))
  {
    if kvs != [] {
      SetAllUnique(kvs[..|kvs| - 1]);
      SetUnique(SetAll(kvs[..|kvs| - 1]), kvs[|kvs| - 1].0, kvs[|kvs| - 1].1);
    }
  }

  /** Assigning the entries of a mapping without repeats makes that mapping. */
  lemma {:induction false} SetAllSelf<T>(es: seq<(Key, T)>)
    requires Unique(es)
    ensures SetAll(es) == es
  {
    if es != [] {
      var init, last := es[..|es| - 1], es[|es| - 1];
      SetAllSelf(init);
      SetNew(init, last.0, last.1);
      assert es == init + [last];
    }
  }

  lemma SetAllTwice<T>(kvs: seq<(Key, T)>)
    ensures SetAll(SetAll(kvs)) == SetAll(kvs)
  {
    SetAllUnique(kvs);
    SetAllSelf(SetAll(kvs));
  }

  // ---------------------------------------------------------------- keys that are kept as they are

  /** The entries of the other keys, assigned one after another. */
  function Unknown<T>(es: seq<(Key, T)>, known: set<Key>): seq<(Key, T)> {
    if es == [] then []
    else
      var rest, last := Unknown(es[..|es| - 1], known), es[|es| - 1];
      if last.0 in known then rest else Set(rest, last.0, last.1)
  }

  ghost predicate NoneOf<T>(es: seq<(Key, T)>, known: set<Key>) {
    forall i :: 0 <= i < |es| ==> es[i].0 !in known
  }

  lemma {:induction false} UnknownLacks<T>(es: seq<(Key, T)>, known: set<Key>)
    ensures Unique(Unknown(es, known)) && NoneOf(Unknown(es, known), known)
  {
    if es != [] {
      var rest, last := Unknown(es[..|es| - 1], known), es[|es| - 1];
      UnknownLacks(es[..|es| - 1], known);
      SetUnique(rest, last.0, last.1);
      SetKeys(rest, last.0, last.1);
    }
  }

  lemma {:induction false} UnknownSelf<T>(es: seq<(Key, T)>, known: set<Key>)
    requires Unique(es) && NoneOf(es, known)
    ensures Unknown(es, known) == es
  {
    if es != [] {
      var init, last := es[..|es| - 1], es[|es| - 1];
      UnknownSelf(init, known);
      SetNew(init, last.0, last.1);
      assert es == init + [last];
    }
  }

  /** Assigning a known key changes nothing about the others. */
  lemma {:induction false} UnknownSet<T>(es: seq<(Key, T)>, known: set<Key>, k: Key, v: T)
    requires k in known
    ensures Unknown(Set(es, k, v), known) == Unknown(es, known)
  {
    var r := Set(es, k, v);
    SetKeys(es, k, v);
    if |r| > |es| {
      assert r[..|es|] == es;
    } else {
      UnknownAgree(es, r, known);
    }
  }

  lemma {:induction false} UnknownAgree<T>(es: seq<(Key, T)>, fs: seq<(Key, T)>, known: set<Key>)
    requires |es| == |fs| && forall i :: 0 <= i < |es| ==> fs[i] == es[i] || (fs[i].0 == es[i].0 && es[i].0 in known)
    ensures Unknown(es, known) == Unknown(fs, known)
    decreases |es|
  {
    if es != [] {
      UnknownAgree(es[..|es| - 1], fs[..|fs| - 1], known);
    }
  }

  /** The last entry of a key: the one that stays when a mapping repeats it. */
  function Last<T>(es: seq<(Key, T)>, k: Key): Option<T> {
    if es == [] then None
    else if es[|es| - 1].0 == k then Some(es[|es| - 1].1)
    else Last(es[..|es| - 1], k)
  }

  /** Every key that is not known is kept, with the value it had last. */
  lemma {:induction false} UnknownKeeps<T>(es: seq<(Key, T)>, known: set<Key>, k: Key)
    requires k !in known
    ensures Get(Unknown(es, known), k) == Last(es, k)
  {
    if es != [] {
      var rest, last := Unknown(es[..|es| - 1], known), es[|es| - 1];
      UnknownKeeps(es[..|es| - 1], known, k);
      GetSet(rest, last.0, last.1, k);
    }
  }

  // ---------------------------------------------------------------- the laws can be met

  function Rank(k: Key): nat {
    match k
    case Name => 0 case CoordinateSystem => 1 case ReferenceLevelName => 2 case Levels => 3
    case Elevation => 4 case Drawing => 5 case Vertices => 6 case Lanes => 7 case Walls => 8 case Doors => 9
    case Measurements => 10 case Floors => 11 case Fiducials => 12 case Layers => 13
    case Parameters => 14 case Holes => 15 case Filename => 16 case Visible => 17 case Color => 18
    case Transform => 19 case Scale => 20 case Yaw => 21 case TranslationX => 22 case TranslationY => 23
    case Other(_) => 24
  }

  predicate Less(a: string, b: string) {
    b != "" && (a == "" || a[0] < b[0] || (a[0] == b[0] && Less(a[1..], b[1..])))
  }

  lemma {:induction false} LessOrders(a: string, b: string)
    ensures Less(a, b) ==> !Less(b, a) && a != b
    ensures a != b ==> Less(a, b) || Less(b, a)
    decreases |a|
  {
    if a != "" && b != "" {
      LessOrders(a[1..], b[1..]);
      assert a == [a[0]] + a[1..] && b == [b[0]] + b[1..];
    }
  }

  lemma {:induction false} LessChains(a: string, b: string, c: string)
    requires Less(a, b) && Less(b, c)
    ensures Less(a, c)
    decreases |a|
  {
    if a != "" && a[0] == b[0] && b[0] == c[0] {
      LessChains(a[1..], b[1..], c[1..]);
    }
  }

  predicate KeyBefore(j: Key, k: Key) {
    Rank(j) < Rank(k) || (j.Other? && k.Other? && Less(j.text, k.text))
  }

  lemma RankApart(j: Key, k: Key)
    ensures Rank(j) == Rank(k) <==> j == k || (j.Other? && k.Other?)
  {
  }

  lemma KeyBeforeOrders()
    ensures forall j: Key, k: Key :: KeyBefore(j, k) ==> !KeyBefore(k, j) && j != k
    ensures forall j: Key, k: Key :: j != k ==> KeyBefore(j, k) || KeyBefore(k, j)
    ensures forall j: Key, k: Key, l: Key :: KeyBefore(j, k) && KeyBefore(k, l) ==> KeyBefore(j, l)
  {
    forall j: Key, k: Key
      ensures KeyBefore(j, k) ==> !KeyBefore(k, j) && j != k
      ensures j != k ==> KeyBefore(j, k) || KeyBefore(k, j)
    {
      RankApart(j, k);
      if j.Other? && k.Other? { LessOrders(j.text, k.text); }
      hide Rank, Less;
    }
    forall j: Key, k: Key, l: Key | KeyBefore(j, k) && KeyBefore(k, l) ensures KeyBefore(j, l) {
      RankApart(j, k);
      RankApart(k, l);
      if j.Other? && k.Other? && l.Other? && Less(j.text, k.text) && Less(k.text, l.text) { LessChains(j.text, k.text, l.text); }
      hide Rank, Less;
    }
  }

  function Tally(c: char, n: nat): (s: string)
    ensures |s| == n && forall i :: 0 <= i < n ==> s[i] == c
  {
    seq(n, _ => c)
  }

  function IntTally(i: int): string {
    if i < 0 then Tally('-', -i) else Tally('+', i)
  }

  function Counted(s: string): Option<Int32> {
    var n: int := if s != "" && s[0] == '-' then -|s| else |s|;
    if -0x8000_0000 <= n < 0x8000_0000 then Some(n) else None
  }

  function CountedDouble(n: nat): Option<Double> {
    if n < 0x1_0000_0000_0000_0000
       && (n % 0x8000_0000_0000_0000 > 0x7ff0_0000_0000_0000 ==> n == 0x7ff8_0000_0000_0000)
    then Some(n) else None
  }

  /** Numbers counted out in characters, and keys by their place in the list above, then as strings. */
  function Tallies(): Scalars {
    Scalars((i: Int32) => IntTally(i), s => Counted(s),
            (d: Double) => Tally('+', d), s => CountedDouble(|s|),
            b => if b then "y" else "n", s => if s == "y" then Some(true) else if s == "n" then Some(false) else None,
            (j, k) => KeyBefore(j, k))
  }

  lemma SomeScalars()
    ensures Lawful(Tallies())
  {
    KeyBeforeOrders();
    hide KeyBefore;
    forall i: Int32 ensures Counted(IntTally(i)) == Some(i) {
    }
    forall d: Double ensures CountedDouble(|Tally('+', d)|) == Some(d) {
    }
    hide Tally, IntTally, Counted, CountedDouble;
  }
}
