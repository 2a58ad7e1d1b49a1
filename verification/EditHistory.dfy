/** Bounded undo and redo by snapshots, after `model/edit_history.cpp`. */
module EditHistory {
  const MIN_STEPS := 8

  /** A snapshot and the bytes it was reckoned at when it was taken. */
  datatype Step<Map> = Step(shot: Map, bytes: nat)

  function Bytes<Map>(s: seq<Step<Map>>): nat {
    if s == [] then 0 else s[0].bytes + Bytes(s[1..])
  }

  lemma {:induction false} BytesAppend<Map>(s: seq<Step<Map>>, t: Step<Map>)
    ensures Bytes(s + [t]) == Bytes(s) + t.bytes
    decreases |s|
  {
    if s == [] {
      assert (s + [t])[1..] == [];
    } else {
      assert (s + [t])[1..] == s[1..] + [t];
      BytesAppend(s[1..], t);
    }
  }

  lemma BytesLast<Map>(s: seq<Step<Map>>)
    requires s != []
    ensures Bytes(s) == Bytes(s[..|s| - 1]) + s[|s| - 1].bytes
  {
    BytesAppend(s[..|s| - 1], s[|s| - 1]);
    assert s == s[..|s| - 1] + [s[|s| - 1]];
  }

  /** A past that `trim` lets be. */
  predicate Allowed<Map>(past: seq<Step<Map>>, limit: nat, budget: nat) {
    |past| <= limit && (|past| <= MIN_STEPS || Bytes(past) <= budget)
  }

  /** `kept` is the longest end of `past` that is allowed. */
  ghost predicate Trimmed<Map>(past: seq<Step<Map>>, kept: seq<Step<Map>>, limit: nat, budget: nat) {
    && |kept| <= |past| && kept == past[|past| - |kept|..] && Allowed(kept, limit, budget)
    && forall k :: 0 <= k < |past| - |kept| ==> !Allowed(past[k..], limit, budget)
  }

  function Maps<Map>(s: seq<Step<Map>>): (r: seq<Map>)
    ensures |r| == |s|
  {
    seq(|s|, i requires 0 <= i < |s| => s[i].shot)
  }

  function Backwards<Map>(s: seq<Step<Map>>): (r: seq<Map>)
    ensures |r| == |s|
  {
    seq(|s|, i requires 0 <= i < |s| => s[|s| - 1 - i].shot)
  }

  /** The history as its user sees it: every map within reach, in order, and which is shown. */
  datatype Line<Map> = Line(maps: seq<Map>, at: nat)

  /** An edit with nothing forgotten: what was undone goes, the new map comes after. */
  function Committed<Map>(l: Line<Map>, now: Map): Line<Map> {
    Line((if l.at < |l.maps| then l.maps[..l.at + 1] else l.maps) + [now], l.at + 1)
  }

  /** `near` is the end of `whole` from some place on, and shows the same map. */
  ghost predicate EndOf<Map>(near: Line<Map>, whole: Line<Map>) {
    && near.at <= whole.at && |near.maps| <= |whole.maps|
    && whole.at - near.at == |whole.maps| - |near.maps|
    && near.maps == whole.maps[whole.at - near.at..]
  }

  class History<Map> {
    var current: Map
    var past: seq<Step<Map>>
    var future: seq<Step<Map>>
    var pastBytes: nat
    var futureBytes: nat
    const limit: nat
    const budget: nat
    /** The history had nothing ever been forgotten. */
    ghost var whole: Line<Map>

    /** The counters are the sums of the steps' bytes, and the two sides stay within the limit. */
    ghost predicate Valid()
      reads this
    {
      && limit >= 1
      && pastBytes == Bytes(past) && futureBytes == Bytes(future)
      && |past| + |future| <= limit
      && EndOf(View(), whole)
    }

    ghost function View(): (v: Line<Map>)
      reads this
      ensures v.at < |v.maps| && v.maps[v.at] == current
    {
      Line(Maps(past) + [current] + Backwards(future), |past|)
    }

    constructor (initial: Map, limit_: nat, budget_: nat)
      ensures Valid() && View() == Line([initial], 0)
      ensures whole == View()
      ensures limit == (if limit_ == 0 then 1 else limit_) && budget == budget_
    {
      current := initial;
      past, future := [], [];
      pastBytes, futureBytes := 0, 0;
      limit := if limit_ == 0 then 1 else limit_;
      budget := budget_;
      whole := Line([initial], 0);
      new;
      StartLine(initial);
    }

    method Reset(initial: Map)
      requires Valid()
      modifies this
      ensures Valid() && View() == whole == Line([initial], 0)
    {
      current := initial;
      past, future := [], [];
      pastBytes, futureBytes := 0, 0;
      whole := Line([initial], 0);
      StartLine(initial);
    }

    /** The loop of `trim`.  What it drops it drops from the old end, and no more than it must. */
    method Trim()
      requires limit >= 1 && pastBytes == Bytes(past) && futureBytes == Bytes(future) && future == []
      requires EndOf(View(), whole)
      modifies this`past, this`pastBytes
      ensures Valid() && Trimmed(old(past), past, limit, budget)
    {
      hide EndOf, Maps, Backwards;
      ghost var was := past;
      while |past| > limit || (|past| > MIN_STEPS && pastBytes > budget)
        invariant |past| <= |was| && past == was[|was| - |past|..] && pastBytes == Bytes(past)
        invariant forall k :: 0 <= k < |was| - |past| ==> !Allowed(was[k..], limit, budget)
        invariant EndOf(View(), whole)
        decreases |past|
      {
        DroppedLine(past, current, future, whole);
        assert past[1..] == was[|was| - |past| + 1..];
        pastBytes := pastBytes - past[0].bytes;
        past := past[1..];
      }
    }

    /** `commit`: the map that was shown becomes a step of `bytes`, and what was undone is out of
        reach. */
    method Commit(now: Map, bytes: nat)
      requires Valid()
      modifies this
      ensures Valid() && current == now && future == []
      ensures whole == Committed(old(whole), now)
      ensures Trimmed(old(past) + [Step(old(current), bytes)], past, limit, budget)
    {
      var step := Step(current, bytes);
      BytesAppend(past, step);
      past := past + [step];
      pastBytes := pastBytes + bytes;
      CommittedLine(past[..|past| - 1], current, future, bytes, now, whole);
      whole := Committed(whole, now);
      current := now;
      future, futureBytes := [], 0;
      Trim();
    }

    /** `undo`: one place back along an unchanged line, if there is one. */
    method Undo(bytes: nat) returns (moved: bool)
      requires Valid()
      modifies this
      ensures Valid() && moved == (old(View()).at > 0)
      ensures View() == Line(old(View()).maps, if moved then old(View()).at - 1 else old(View()).at)
      ensures whole == Line(old(whole).maps, if moved then old(whole).at - 1 else old(whole).at)
    {
      if past == [] { return false; }
      var step, last := Step(current, bytes), past[|past| - 1];
      BytesAppend(future, step);
      BytesLast(past);
      UndoneLine(past, current, future, bytes);
      future := future + [step];
      futureBytes := futureBytes + bytes;
      pastBytes := pastBytes - last.bytes;
      current := last.shot;
      past := past[..|past| - 1];
      whole := Line(whole.maps, whole.at - 1);
      return true;
    }

    /** `redo`: one place forward along an unchanged line, if there is one. */
    method Redo(bytes: nat) returns (moved: bool)
      requires Valid()
      modifies this
      ensures Valid() && moved == (old(View()).at + 1 < |old(View()).maps|)
      ensures View() == Line(old(View()).maps, if moved then old(View()).at + 1 else old(View()).at)
      ensures whole == Line(old(whole).maps, if moved then old(whole).at + 1 else old(whole).at)
      ensures moved == (old(whole).at + 1 < |old(whole).maps|)
    {
      if future == [] { return false; }
      var step, last := Step(current, bytes), future[|future| - 1];
      BytesAppend(past, step);
      BytesLast(future);
      RedoneLine(past, current, future, bytes);
      past := past + [step];
      pastBytes := pastBytes + bytes;
      futureBytes := futureBytes - last.bytes;
      current := last.shot;
      future := future[..|future| - 1];
      whole := Line(whole.maps, whole.at + 1);
      return true;
    }
  }

  lemma StartLine<Map>(initial: Map)
    ensures Maps<Map>([]) + [initial] + Backwards<Map>([]) == [initial]
    ensures EndOf(Line([initial], 0), Line([initial], 0))
  {
    assert [initial][0..] == [initial];
  }

  lemma DroppedLine<Map>(past: seq<Step<Map>>, current: Map, future: seq<Step<Map>>, whole: Line<Map>)
    requires past != [] && EndOf(Line(Maps(past) + [current] + Backwards(future), |past|), whole)
    ensures EndOf(Line(Maps(past[1..]) + [current] + Backwards(future), |past| - 1), whole)
  {
    assert Maps(past[1..]) + [current] + Backwards(future) == (Maps(past) + [current] + Backwards(future))[1..];
  }

  lemma CommittedLine<Map>(past: seq<Step<Map>>, current: Map, future: seq<Step<Map>>, bytes: nat, now: Map, whole: Line<Map>)
    requires EndOf(Line(Maps(past) + [current] + Backwards(future), |past|), whole)
    ensures EndOf(Line(Maps(past + [Step(current, bytes)]) + [now] + Backwards([]), |past| + 1), Committed(whole, now))
  {
    var near, d := Maps(past) + [current] + Backwards(future), whole.at - |past|;
    assert Maps(past + [Step(current, bytes)]) == Maps(past) + [current];
    assert near[..|past| + 1] == Maps(past) + [current];
    assert whole.maps[..whole.at + 1][d..] == near[..|past| + 1];
  }

  lemma UndoneLine<Map>(past: seq<Step<Map>>, current: Map, future: seq<Step<Map>>, bytes: nat)
    requires past != []
    ensures Maps(past) + [current] + Backwards(future)
         == Maps(past[..|past| - 1]) + [past[|past| - 1].shot] + Backwards(future + [Step(current, bytes)])
  {
    assert Maps(past) == Maps(past[..|past| - 1]) + [past[|past| - 1].shot];
    assert Backwards(future + [Step(current, bytes)]) == [current] + Backwards(future);
  }

  lemma RedoneLine<Map>(past: seq<Step<Map>>, current: Map, future: seq<Step<Map>>, bytes: nat)
    requires future != []
    ensures Maps(past) + [current] + Backwards(future)
         == Maps(past + [Step(current, bytes)]) + [future[|future| - 1].shot] + Backwards(future[..|future| - 1])
  {
    assert Maps(past + [Step(current, bytes)]) == Maps(past) + [current];
    assert Backwards(future) == [future[|future| - 1].shot] + Backwards(future[..|future| - 1]);
  }
}
