/** Loading textures on worker threads, after `canvas/texture_loader.cpp`, `acquire` in
    `canvas/canvas.cpp` and `trigger_load` and `pump` in `canvas/stb_texture_provider.cpp`: one step
    for each section a thread runs under the lock.  A job is the cache key it was submitted for. */
module TextureLoader {
  const MAX_WORKERS := 3

  datatype Done = Done(key: string, ok: bool)

  datatype Status = Loading | Shown | Failed

  /** `flying` has a place per worker: the job it is fetching and decoding, if any.  `textures` has no
      entry for a texture that is not started; `delivered` is what was handed to the textures. */
  datatype State = State(
    queue: seq<string>, flying: seq<seq<string>>, done: seq<Done>, stop: bool,
    delivered: seq<string>, textures: map<string, Status>)

  datatype Step =
    | Acquire(key: string, cores: nat)
    | Take(w: nat)
    | Finish(w: nat, ok: bool)
    | Drain
    | Stop

  function Start(): State {
    State([], [], [], false, [], map[])
  }

  /** `ensure_workers`: up to three, one at least. */
  function Workers(flying: seq<seq<string>>, cores: nat): (r: seq<seq<string>>)
    ensures |r| >= |flying| && r != [] && flying == r[..|flying|]
    ensures forall i :: |flying| <= i < |r| ==> r[i] == []
  {
    var hardware := if cores < 1 then 1 else cores;
    var want := if hardware < MAX_WORKERS then hardware else MAX_WORKERS;
    if |flying| >= want then flying else flying + seq(want - |flying|, _ => [])
  }

  /** What `pump` does with one finished job. */
  function Applied(textures: map<string, Status>, d: Done): map<string, Status> {
    if d.key in textures then textures[d.key := if d.ok then Shown else Failed] else textures
  }

  function AppliedAll(textures: map<string, Status>, ds: seq<Done>): map<string, Status> {
    if ds == [] then textures else Applied(AppliedAll(textures, ds[..|ds| - 1]), ds[|ds| - 1])
  }

  function Keys(ds: seq<Done>): (r: seq<string>)
    ensures |r| == |ds|
  {
    seq(|ds|, i requires 0 <= i < |ds| => ds[i].key)
  }

  predicate Enabled(s: State, t: Step) {
    match t
    case Acquire(_, _) => !s.stop
    case Take(w) => w < |s.flying| && s.flying[w] == [] && !s.stop && s.queue != []
    case Finish(w, _) => w < |s.flying| && s.flying[w] != []
    case Drain => !s.stop
    case Stop => !s.stop
  }

  function Next(s: State, t: Step): State
    requires Enabled(s, t)
  {
    match t
    case Acquire(key, cores) =>
      if key in s.textures then s
      else s.(textures := s.textures[key := Loading], queue := s.queue + [key], flying := Workers(s.flying, cores))
    case Take(w) => s.(queue := s.queue[1..], flying := s.flying[w := [s.queue[0]]])
    case Finish(w, ok) =>
      if s.stop then s.(flying := s.flying[w := []])
      else s.(flying := s.flying[w := []], done := s.done + [Done(s.flying[w][0], ok)])
    case Drain => s.(done := [], textures := AppliedAll(s.textures, s.done), delivered := s.delivered + Keys(s.done))
    case Stop => s.(stop := true, queue := [])
  }

  // ---------------------------------------------------------------- every job is somewhere, once

  function InFlight(fs: seq<seq<string>>): multiset<string> {
    if fs == [] then multiset{} else InFlight(fs[..|fs| - 1]) + multiset(fs[|fs| - 1])
  }

  /** The jobs not yet delivered. */
  function Outstanding(s: State): multiset<string> {
    multiset(s.queue) + InFlight(s.flying) + multiset(Keys(s.done))
  }

  function LoadingKeys(textures: map<string, Status>): set<string> {
    set k | k in textures && textures[k] == Loading
  }

  ghost predicate AtMostOne(fs: seq<seq<string>>) {
    forall w :: 0 <= w < |fs| ==> |fs[w]| <= 1
  }

  /** Until the loader stops: the jobs that are queued, in flight, done or delivered are the textures
      ever acquired, each exactly once, and those not yet delivered are the textures that are
      loading, each exactly once. */
  ghost predicate Inv(s: State) {
    && AtMostOne(s.flying) && (s.queue != [] ==> s.flying != [])
    && (!s.stop ==>
         && Outstanding(s) + multiset(s.delivered) == multiset(s.textures.Keys)
         && Outstanding(s) == multiset(LoadingKeys(s.textures)))
  }

  lemma {:induction false} InFlightPut(fs: seq<seq<string>>, w: nat, jobs: seq<string>)
    requires w < |fs|
    ensures InFlight(fs[w := jobs]) + multiset(fs[w]) == InFlight(fs) + multiset(jobs)
    decreases |fs|
  {
    var now, n := fs[w := jobs], |fs| - 1;
    var init := fs[..n];
    assert InFlight(fs) == InFlight(init) + multiset(fs[n]);
    assert InFlight(now) == InFlight(now[..n]) + multiset(now[n]);
    if w == n {
      assert now[..n] == init && now[n] == jobs;
      Swap(InFlight(init), multiset(jobs), multiset(fs[n]));
    } else {
      assert now[..n] == init[w := jobs] && now[n] == fs[n] && init[w] == fs[w];
      InFlightPut(init, w, jobs);
      Swap(InFlight(now[..n]), multiset(fs[n]), multiset(fs[w]));
      Swap(InFlight(init), multiset(jobs), multiset(fs[n]));
    }
  }

  lemma Swap(a: multiset<string>, b: multiset<string>, c: multiset<string>)
    ensures a + b + c == a + c + b
  {
  }

  lemma {:induction false} InFlightGrown(fs: seq<seq<string>>, more: seq<seq<string>>)
    requires |more| >= |fs| && fs == more[..|fs|] && forall i :: |fs| <= i < |more| ==> more[i] == []
    ensures InFlight(more) == InFlight(fs)
    decreases |more|
  {
    if |more| == |fs| {
      assert more == fs;
    } else {
      InFlightGrown(fs, more[..|more| - 1]);
    }
  }

  lemma {:induction false} AppliedKeys(textures: map<string, Status>, ds: seq<Done>)
    ensures var now := AppliedAll(textures, ds);
            && now.Keys == textures.Keys
            && forall k :: k in textures ==> (now[k] == Loading <==> textures[k] == Loading && k !in Keys(ds))
  {
    if ds != [] {
      var init := ds[..|ds| - 1];
      AppliedKeys(textures, init);
      assert Keys(ds) == Keys(init) + [ds[|ds| - 1].key];
    }
  }

  lemma AcquireKeeps(s: State, key: string, cores: nat)
    requires Inv(s) && !s.stop
    ensures Inv(Next(s, Acquire(key, cores)))
  {
    if key !in s.textures {
      var n := Next(s, Acquire(key, cores));
      InFlightGrown(s.flying, n.flying);
      assert multiset(s.queue + [key]) == multiset(s.queue) + multiset{key};
      assert n.textures.Keys == s.textures.Keys + {key};
      assert LoadingKeys(n.textures) == LoadingKeys(s.textures) + {key};
      SetPlus(s.textures.Keys, key);
      SetPlus(LoadingKeys(s.textures), key);
      forall w | 0 <= w < |n.flying| ensures |n.flying[w]| <= 1 {
        if w < |s.flying| { assert n.flying[w] == n.flying[..|s.flying|][w]; }
      }
      hide InFlight, Keys, LoadingKeys, Workers;
      Queued(multiset(s.queue), multiset{key}, InFlight(s.flying), multiset(Keys(s.done)), multiset(s.delivered));
    }
  }

  lemma Queued(q: multiset<string>, x: multiset<string>, f: multiset<string>, d: multiset<string>, e: multiset<string>)
    ensures (q + x) + f + d == (q + f + d) + x
    ensures (q + x) + f + d + e == (q + f + d + e) + x
  {
  }

  lemma SetPlus(a: set<string>, x: string)
    requires x !in a
    ensures multiset(a + {x}) == multiset(a) + multiset{x}
  {
  }

  lemma Moved(a: multiset<string>, x: multiset<string>, f: multiset<string>, f': multiset<string>, d: multiset<string>)
    requires f' == f + x
    ensures a + f' + d == (x + a) + f + d
  {
  }

  lemma TakeKeeps(s: State, w: nat)
    requires Inv(s) && Enabled(s, Take(w))
    ensures Inv(Next(s, Take(w)))
  {
    var n, head := Next(s, Take(w)), [s.queue[0]];
    InFlightPut(s.flying, w, head);
    assert multiset(s.flying[w]) == multiset{};
    assert InFlight(n.flying) + multiset{} == InFlight(n.flying);
    assert s.queue == head + s.queue[1..];
    assert multiset(s.queue) == multiset(head) + multiset(s.queue[1..]);
    hide InFlight, Keys;
    Moved(multiset(s.queue[1..]), multiset(head), InFlight(s.flying), InFlight(n.flying), multiset(Keys(s.done)));
  }

  lemma FinishKeeps(s: State, w: nat, ok: bool)
    requires Inv(s) && Enabled(s, Finish(w, ok))
    ensures Inv(Next(s, Finish(w, ok)))
  {
    if !s.stop {
      FinishMoves(s, w, ok);
    }
    hide InFlight, Keys, Outstanding, LoadingKeys;
  }

  lemma FinishMoves(s: State, w: nat, ok: bool)
    requires Inv(s) && Enabled(s, Finish(w, ok)) && !s.stop
    ensures Outstanding(Next(s, Finish(w, ok))) == Outstanding(s)
  {
    var n, job := Next(s, Finish(w, ok)), s.flying[w];
    InFlightPut(s.flying, w, []);
    var none: seq<string> := [];
    assert multiset(none) == multiset{};
    assert InFlight(s.flying) + multiset{} == InFlight(s.flying);
    assert job == [job[0]];
    assert Keys(n.done) == Keys(s.done) + job;
    assert multiset(Keys(n.done)) == multiset(Keys(s.done)) + multiset(job);
    hide InFlight, Keys;
    Moved(multiset(s.queue), multiset(job), InFlight(n.flying), InFlight(s.flying), multiset(Keys(s.done)));
    Regroup(multiset(s.queue), multiset(job), InFlight(n.flying), multiset(Keys(s.done)));
  }

  lemma Regroup(q: multiset<string>, x: multiset<string>, f: multiset<string>, d: multiset<string>)
    ensures (x + q) + f + d == q + f + (d + x)
  {
  }

  lemma DrainKeeps(s: State)
    requires Inv(s) && !s.stop
    ensures Inv(Next(s, Drain))
  {
    var n := Next(s, Drain);
    AppliedKeys(s.textures, s.done);
    assert Keys([]) == [];
    assert Outstanding(n) + multiset(n.delivered) == Outstanding(s) + multiset(s.delivered);
    var was, now, gone := LoadingKeys(s.textures), LoadingKeys(n.textures), multiset(Keys(s.done));
    assert Outstanding(s) == Outstanding(n) + gone;
    forall k ensures Outstanding(n)[k] == multiset(now)[k] {
      assert Outstanding(s)[k] == multiset(was)[k];
      assert k in gone <==> k in Keys(s.done);
      if k in s.textures {
        assert k in now <==> k in was && k !in Keys(s.done);
      }
    }
  }

  /** Every step keeps the invariant. */
  lemma StepKeeps(s: State, t: Step)
    requires Inv(s) && Enabled(s, t)
    ensures Inv(Next(s, t))
  {
    match t
    case Acquire(key, cores) => AcquireKeeps(s, key, cores);
    case Take(w) => TakeKeeps(s, w);
    case Finish(w, ok) => FinishKeeps(s, w, ok);
    case Drain => DrainKeeps(s);
    case Stop =>
  }

  predicate Legal(s: State, run: seq<Step>)
    decreases |run|
  {
    run == [] || (Enabled(s, run[0]) && Legal(Next(s, run[0]), run[1..]))
  }

  function After(s: State, run: seq<Step>): State
    requires Legal(s, run)
    decreases |run|
  {
    if run == [] then s else After(Next(s, run[0]), run[1..])
  }

  lemma {:induction false} RunKeeps(s: State, run: seq<Step>)
    requires Inv(s) && Legal(s, run)
    ensures Inv(After(s, run))
    decreases |run|
  {
    if run != [] {
      StepKeeps(s, run[0]);
      RunKeeps(Next(s, run[0]), run[1..]);
    }
  }

  /** Over every interleaving until the stop: no job is delivered twice or lost, and every texture
      that is loading has its job queued, in flight or done. */
  lemma NothingStranded(run: seq<Step>, k: string)
    requires Legal(Start(), run) && !After(Start(), run).stop
    ensures var s := After(Start(), run);
            && multiset(s.delivered)[k] <= 1
            && Outstanding(s)[k] + multiset(s.delivered)[k] == (if k in s.textures then 1 else 0)
            && (k in s.textures && s.textures[k] == Loading <==> k in Outstanding(s))
  {
    assert Keys([]) == [];
    assert Inv(Start());
    RunKeeps(Start(), run);
    var s := After(Start(), run);
    assert Outstanding(s) + multiset(s.delivered) == multiset(s.textures.Keys);
    assert (Outstanding(s) + multiset(s.delivered))[k] == multiset(s.textures.Keys)[k];
    assert k in Outstanding(s) <==> k in LoadingKeys(s.textures);
  }

  // ---------------------------------------------------------------- and it gets delivered

  function Busy(fs: seq<seq<string>>): nat {
    if fs == [] then 0 else Busy(fs[..|fs| - 1]) + |fs[|fs| - 1]|
  }

  /** The lock sections still to run before every job is delivered. */
  function Work(s: State): nat {
    3 * |s.queue| + 2 * Busy(s.flying) + |s.done|
  }

  lemma {:induction false} BusyPut(fs: seq<seq<string>>, w: nat, jobs: seq<string>)
    requires w < |fs|
    ensures Busy(fs[w := jobs]) + |fs[w]| == Busy(fs) + |jobs|
    decreases |fs|
  {
    var now, n := fs[w := jobs], |fs| - 1;
    if w == n {
      assert now[..n] == fs[..n];
    } else {
      assert now[..n] == fs[..n][w := jobs];
      BusyPut(fs[..n], w, jobs);
    }
  }

  predicate Moves(s: State, t: Step) {
    Enabled(s, t) && (t.Take? || t.Finish? || (t.Drain? && s.done != []))
  }

  /** Every step of a worker, and every drain that finds something, leaves less work. */
  lemma WorkShrinks(s: State, t: Step)
    requires Inv(s) && !s.stop && Moves(s, t)
    ensures Work(Next(s, t)) < Work(s)
  {
    if t.Take? {
      BusyPut(s.flying, t.w, [s.queue[0]]);
    } else if t.Finish? {
      BusyPut(s.flying, t.w, []);
    }
  }

  lemma {:induction false} Idle(fs: seq<seq<string>>)
    requires forall w :: 0 <= w < |fs| ==> fs[w] == []
    ensures InFlight(fs) == multiset{}
  {
    if fs != [] {
      Idle(fs[..|fs| - 1]);
    }
  }

  /** As long as a texture is loading, a worker or a drain can move. */
  lemma LoadingMoves(s: State)
    requires Inv(s) && !s.stop && LoadingKeys(s.textures) != {}
    ensures exists t :: Moves(s, t)
  {
    if s.done != [] {
      assert Moves(s, Drain);
    } else if w: nat :| w < |s.flying| && s.flying[w] != [] {
      assert Moves(s, Finish(w, true));
    } else if s.queue != [] {
      assert Moves(s, Take(0));
    } else {
      NothingLoads(s);
    }
  }

  lemma NothingLoads(s: State)
    requires Inv(s) && !s.stop && s.queue == [] && s.done == [] && forall w :: 0 <= w < |s.flying| ==> s.flying[w] == []
    ensures LoadingKeys(s.textures) == {}
  {
    Idle(s.flying);
    assert Keys(s.done) == [];
    assert Outstanding(s) == multiset{};
    assert forall k :: k in LoadingKeys(s.textures) <==> k in multiset(LoadingKeys(s.textures));
  }

  // ---------------------------------------------------------------- in which order, and with which result

  /** The textures acquired for the first time along a run, in order. */
  ghost function Submitted(s: State, run: seq<Step>): seq<string>
    requires Legal(s, run)
    decreases |run|
  {
    if run == [] then []
    else (if run[0].Acquire? && run[0].key !in s.textures then [run[0].key] else []) + Submitted(Next(s, run[0]), run[1..])
  }

  /** The jobs the workers hold after taking one, in the order they took them. */
  ghost function Taken(s: State, run: seq<Step>): seq<string>
    requires Legal(s, run)
    decreases |run|
  {
    if run == [] then []
    else (if run[0].Take? then Next(s, run[0]).flying[run[0].w] else []) + Taken(Next(s, run[0]), run[1..])
  }

  /** The jobs that workers finished along a run, each with whether it could be loaded. */
  ghost function Finished(s: State, run: seq<Step>): seq<Done>
    requires Legal(s, run)
    decreases |run|
  {
    if run == [] then []
    else (if run[0].Finish? then [Done(s.flying[run[0].w][0], run[0].ok)] else []) + Finished(Next(s, run[0]), run[1..])
  }

  lemma {:induction false} StopStays(s: State, run: seq<Step>)
    requires Legal(s, run) && s.stop
    ensures var e := After(s, run); e.stop && e.queue == s.queue && e.textures == s.textures && e.delivered == s.delivered && e.done == s.done
    decreases |run|
  {
    if run != [] {
      StopStays(Next(s, run[0]), run[1..]);
    }
  }

  lemma FifoStep(s: State, t: Step)
    requires Enabled(s, t) && !Next(s, t).stop
    ensures s.queue + (if t.Acquire? && t.key !in s.textures then [t.key] else [])
         == (if t.Take? then Next(s, t).flying[t.w] else []) + Next(s, t).queue
  {
    hide Workers, AppliedAll, Keys;
    assert s.queue + [] == s.queue && [] + s.queue == s.queue;
    if t.Take? { assert s.queue == [s.queue[0]] + s.queue[1..]; }
    if t.Acquire? { assert [] + (s.queue + [t.key]) == s.queue + [t.key]; }
  }

  lemma Chain(q: seq<string>, x: seq<string>, y: seq<string>, q': seq<string>, xs: seq<string>, ys: seq<string>, e: seq<string>)
    requires q + x == y + q' && q' + xs == ys + e
    ensures q + (x + xs) == (y + ys) + e
  {
    assert q + (x + xs) == (q + x) + xs == y + (q' + xs);
  }

  /** Until the stop the workers take the jobs in the order in which they were acquired. */
  lemma {:induction false} FirstInFirstOut(s: State, run: seq<Step>)
    requires Legal(s, run) && !After(s, run).stop
    ensures s.queue + Submitted(s, run) == Taken(s, run) + After(s, run).queue
    decreases |run|
  {
    if run == [] {
      assert s.queue + [] == [] + s.queue;
    } else {
      var t, rest := run[0], run[1..];
      var n := Next(s, t);
      if n.stop { StopStays(n, rest); }
      FirstInFirstOut(n, rest);
      FifoStep(s, t);
      Chain(s.queue, if t.Acquire? && t.key !in s.textures then [t.key] else [], if t.Take? then n.flying[t.w] else [], n.queue,
            Submitted(n, rest), Taken(n, rest), After(n, rest).queue);
      hide Next;
    }
  }

  /** The first of these jobs have been delivered and their textures show how they ended, the others
      are waiting for the next drain. */
  ghost predicate Reported(s: State, ds: seq<Done>) {
    && |s.delivered| + |s.done| == |ds|
    && s.delivered == Keys(ds[..|s.delivered|]) && s.done == ds[|s.delivered|..]
    && forall i :: 0 <= i < |s.delivered| && ds[i].key in s.textures ==> s.textures[ds[i].key] == if ds[i].ok then Shown else Failed
  }

  lemma {:induction false} AppliedLast(textures: map<string, Status>, ds: seq<Done>, i: nat)
    requires i < |ds| && (forall j :: i < j < |ds| ==> ds[j].key != ds[i].key) && ds[i].key in textures
    ensures AppliedAll(textures, ds).Keys == textures.Keys
    ensures AppliedAll(textures, ds)[ds[i].key] == if ds[i].ok then Shown else Failed
    decreases |ds|
  {
    var init := ds[..|ds| - 1];
    AppliedKeys(textures, init);
    if i < |init| { AppliedLast(textures, init, i); }
  }

  lemma {:induction false} AppliedElsewhere(textures: map<string, Status>, ds: seq<Done>, k: string)
    requires k in textures && forall j :: 0 <= j < |ds| ==> ds[j].key != k
    ensures AppliedAll(textures, ds).Keys == textures.Keys && AppliedAll(textures, ds)[k] == textures[k]
  {
    if ds != [] {
      AppliedKeys(textures, ds[..|ds| - 1]);
      AppliedElsewhere(textures, ds[..|ds| - 1], k);
    }
  }

  lemma Twice(a: seq<string>, i: nat, j: nat)
    requires i < j < |a| && a[i] == a[j]
    ensures multiset(a)[a[i]] >= 2
  {
    assert a == a[..j] + a[j..];
    assert a[i] in a[..j] && a[j] in a[j..];
    assert a[i] in multiset(a[..j]) && a[j] in multiset(a[j..]);
  }

  /** Everything handed over so far. */
  ghost function Handed(s: State): (a: seq<string>)
    ensures |a| == |s.delivered| + |s.done|
    ensures forall i :: 0 <= i < |s.delivered| ==> a[i] == s.delivered[i]
    ensures forall i :: |s.delivered| <= i < |a| ==> a[i] == s.done[i - |s.delivered|].key
  {
    s.delivered + Keys(s.done)
  }

  lemma HandedOnce(s: State, k: string)
    requires Inv(s) && !s.stop
    ensures multiset(Handed(s))[k] <= if k in s.textures then 1 else 0
  {
    hide InFlight, LoadingKeys, AtMostOne, Keys;
    assert (Outstanding(s) + multiset(s.delivered))[k] == multiset(s.textures.Keys)[k];
    assert multiset(Handed(s)) == multiset(s.delivered) + multiset(Keys(s.done));
  }

  /** What was delivered and what is done names each texture once at most. */
  lemma Apart(s: State)
    requires Inv(s) && !s.stop
    ensures var a := Handed(s);
            (forall i, j :: 0 <= i < j < |a| ==> a[i] != a[j]) && forall i :: 0 <= i < |a| ==> a[i] in s.textures
  {
    hide Inv, Handed;
    var a := Handed(s);
    forall i, j | 0 <= i < j < |a| ensures a[i] != a[j] {
      if a[i] == a[j] {
        Twice(a, i, j);
        HandedOnce(s, a[i]);
      }
    }
    forall i | 0 <= i < |a| ensures a[i] in s.textures {
      assert a[i] in multiset(a);
      HandedOnce(s, a[i]);
    }
  }

  lemma DrainShows(s: State, i: nat)
    requires Inv(s) && !s.stop && i < |s.done|
    ensures Next(s, Drain).textures.Keys == s.textures.Keys
    ensures s.done[i].key in s.textures ==> Next(s, Drain).textures[s.done[i].key] == if s.done[i].ok then Shown else Failed
  {
    hide Inv, Handed, AppliedAll, Keys;
    Apart(s);
    AppliedKeys(s.textures, s.done);
    var a, p := Handed(s), |s.delivered|;
    forall j | i < j < |s.done| ensures s.done[j].key != s.done[i].key {
      assert a[p + j] != a[p + i];
    }
    if s.done[i].key in s.textures { AppliedLast(s.textures, s.done, i); }
  }

  lemma DrainLeaves(s: State, i: nat)
    requires Inv(s) && !s.stop && i < |s.delivered|
    ensures var k := s.delivered[i]; k in s.textures ==> k in Next(s, Drain).textures && Next(s, Drain).textures[k] == s.textures[k]
  {
    hide Inv, Handed, AppliedAll, Keys;
    Apart(s);
    var a, p := Handed(s), |s.delivered|;
    forall j | 0 <= j < |s.done| ensures s.done[j].key != s.delivered[i] {
      assert a[p + j] != a[i];
    }
    if s.delivered[i] in s.textures { AppliedElsewhere(s.textures, s.done, s.delivered[i]); }
  }

  lemma ReportedDrain(s: State, ds: seq<Done>)
    requires Inv(s) && !s.stop && Reported(s, ds)
    ensures Reported(Next(s, Drain), ds)
  {
    hide Inv, AppliedAll;
    var n, p := Next(s, Drain), |s.delivered|;
    assert ds == ds[..p] + s.done;
    assert ds[..|ds|] == ds && ds[|ds|..] == [];
    assert n.delivered == Keys(ds);
    AppliedKeys(s.textures, s.done);
    forall i | 0 <= i < |n.delivered| && ds[i].key in n.textures
      ensures n.textures[ds[i].key] == if ds[i].ok then Shown else Failed {
      if i < p {
        assert s.delivered[i] == ds[i].key;
        DrainLeaves(s, i);
      } else {
        assert s.done[i - p] == ds[i];
        DrainShows(s, i - p);
      }
    }
  }

  ghost function Outcome(s: State, t: Step): seq<Done>
    requires Enabled(s, t)
  {
    if t.Finish? then [Done(s.flying[t.w][0], t.ok)] else []
  }

  lemma ReportedStep(s: State, t: Step, ds: seq<Done>)
    requires Inv(s) && Enabled(s, t) && Reported(s, ds) && !Next(s, t).stop
    ensures Reported(Next(s, t), ds + Outcome(s, t))
  {
    hide Inv, AppliedAll, Workers;
    assert ds + [] == ds;
    var p := |s.delivered|;
    if t.Drain? {
      ReportedDrain(s, ds);
    } else if t.Acquire? {
      Apart(s);
      assert forall i :: 0 <= i < p ==> Handed(s)[i] == s.delivered[i] == ds[i].key;
    } else if t.Finish? {
      var now := ds + [Done(s.flying[t.w][0], t.ok)];
      assert now[..p] == ds[..p] && now[p..] == ds[p..] + [Done(s.flying[t.w][0], t.ok)];
    }
  }

  lemma RunSteps(s: State, run: seq<Step>)
    requires Legal(s, run) && run != [] && !After(s, run).stop
    ensures Enabled(s, run[0]) && Legal(Next(s, run[0]), run[1..]) && !Next(s, run[0]).stop
    ensures After(s, run) == After(Next(s, run[0]), run[1..])
    ensures Finished(s, run) == Outcome(s, run[0]) + Finished(Next(s, run[0]), run[1..])
  {
    hide Next;
    var n := Next(s, run[0]);
    if n.stop { StopStays(n, run[1..]); }
  }

  lemma {:induction false} ReportedRun(s: State, run: seq<Step>, ds: seq<Done>)
    requires Inv(s) && Legal(s, run) && Reported(s, ds) && !After(s, run).stop
    ensures Reported(After(s, run), ds + Finished(s, run))
    decreases |run|
  {
    hide Inv, Reported, Next, Enabled;
    if run == [] {
      assert ds + [] == ds;
    } else {
      RunSteps(s, run);
      hide Legal, After, Finished;
      StepKeeps(s, run[0]);
      ReportedStep(s, run[0], ds);
      var one, n := Outcome(s, run[0]), Next(s, run[0]);
      ReportedRun(n, run[1..], ds + one);
      assert (ds + one) + Finished(n, run[1..]) == ds + (one + Finished(n, run[1..]));
    }
  }

  /** Over every interleaving until the stop: jobs are delivered in the order they were finished, and
      a texture is shown exactly when its own job was delivered as loaded, failed exactly when it was
      delivered as not. */
  lemma ShownAsFinished(run: seq<Step>, k: string)
    requires Legal(Start(), run) && !After(Start(), run).stop
    ensures var s, ds := After(Start(), run), Finished(Start(), run);
            && s.delivered + Keys(s.done) == Keys(ds)
            && (k in s.textures && s.textures[k] == Shown <==> Done(k, true) in ds[..|s.delivered|])
            && (k in s.textures && s.textures[k] == Failed <==> Done(k, false) in ds[..|s.delivered|])
  {
    StartReported();
    hide Inv, InFlight, Next, Start, Legal, After, Finished, Keys;
    ReportedRun(Start(), run, []);
    RunKeeps(Start(), run);
    var s, ds := After(Start(), run), Finished(Start(), run);
    assert [] + ds == ds;
    StatusKnown(s, k);
    ReportedShows(s, ds, k);
  }

  lemma StartReported()
    ensures Inv(Start()) && Reported(Start(), [])
  {
    assert Keys([]) == [];
  }

  lemma StatusKnown(s: State, k: string)
    requires Inv(s) && !s.stop
    ensures k in s.delivered ==> k in s.textures
    ensures k in s.textures && s.textures[k] != Loading ==> k in s.delivered
  {
    hide InFlight, Keys, AtMostOne;
    assert (Outstanding(s) + multiset(s.delivered))[k] == multiset(s.textures.Keys)[k];
    assert k in Outstanding(s) <==> k in LoadingKeys(s.textures);
    assert k in s.delivered <==> k in multiset(s.delivered);
  }

  lemma ReportedShows(s: State, ds: seq<Done>, k: string)
    requires Reported(s, ds) && (k in s.delivered ==> k in s.textures)
    requires k in s.textures && s.textures[k] != Loading ==> k in s.delivered
    ensures s.delivered + Keys(s.done) == Keys(ds)
    ensures k in s.textures && s.textures[k] == Shown <==> Done(k, true) in ds[..|s.delivered|]
    ensures k in s.textures && s.textures[k] == Failed <==> Done(k, false) in ds[..|s.delivered|]
  {
    var p := |s.delivered|;
    assert ds == ds[..p] + s.done;
    assert forall i :: 0 <= i < p ==> s.delivered[i] == ds[i].key;
    if k in s.delivered {
      var i :| 0 <= i < p && s.delivered[i] == k;
      assert ds[i] in ds[..p];
    }
    forall ok | Done(k, ok) in ds[..p] ensures k in s.textures && s.textures[k] == if ok then Shown else Failed {
      var i :| 0 <= i < p && ds[i] == Done(k, ok);
      assert s.delivered[i] == k;
    }
  }

  /** The pool holds one worker at least once there is a texture, and never more than three. */
  lemma {:induction false} PoolBounded(s: State, run: seq<Step>)
    requires Legal(s, run) && |s.flying| <= 3 && (s.textures.Keys != {} ==> |s.flying| >= 1)
    ensures var e := After(s, run); |s.flying| <= |e.flying| <= 3 && (e.textures.Keys != {} ==> |e.flying| >= 1)
    decreases |run|
  {
    if run != [] {
      var n := Next(s, run[0]);
      if run[0].Drain? { AppliedKeys(s.textures, s.done); }
      PoolBounded(n, run[1..]);
    }
  }
}
