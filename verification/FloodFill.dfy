/** Clearing the white background of an image from its edges inward, after
    `ui/image_utils.hpp`: an RGBA buffer changed in place, a `visited` array and a work stack. */
module FloodFill {
  type byte = x: int | 0 <= x < 256

  datatype Pixel = Pixel(x: int, y: int)

  /** An image's size and white cutoff. */
  datatype Image = Image(width: nat, height: nat, threshold: byte) {
    predicate Has(p: Pixel) {
      0 <= p.x < width && 0 <= p.y < height
    }

    function At(p: Pixel): int {
      p.y * width + p.x
    }

    ghost function Pixels(): (s: set<Pixel>) {
      set x, y | 0 <= x < width && 0 <= y < height :: Pixel(x, y)
    }

    predicate Edge(p: Pixel) {
      Has(p) && (p.x == 0 || p.y == 0 || p.x == width - 1 || p.y == height - 1)
    }
  }

  lemma AtInside(m: Image, p: Pixel)
    requires m.Has(p)
    ensures 0 <= m.At(p) < m.width * m.height
  {
    assert m.At(p) <= (m.height - 1) * m.width + (m.width - 1) by {
      assert p.y * m.width <= (m.height - 1) * m.width;
    }
  }

  lemma AtDistinct(m: Image, p: Pixel, q: Pixel)
    requires m.Has(p) && m.Has(q)
    ensures m.At(p) == m.At(q) ==> p == q
  {
    if p.y < q.y {
      assert (p.y + 1) * m.width <= q.y * m.width;
    } else if q.y < p.y {
      assert (q.y + 1) * m.width <= p.y * m.width;
    }
  }

  /** `is_white`: the three colours of the pixel against the cutoff. */
  predicate White(m: Image, data: seq<byte>, p: Pixel) {
    && m.Has(p) && 0 <= 4 * m.At(p) < |data| - 3
    && data[4 * m.At(p)] >= m.threshold && data[4 * m.At(p) + 1] >= m.threshold && data[4 * m.At(p) + 2] >= m.threshold
  }

  predicate Beside(p: Pixel, q: Pixel) {
    (q.y == p.y && (q.x == p.x - 1 || q.x == p.x + 1)) || (q.x == p.x && (q.y == p.y - 1 || q.y == p.y + 1))
  }

  // ---------------------------------------------------------------- what is to be cleared

  /** A walk over white pixels from the edge of the image, each beside the one before. */
  ghost predicate Walk(m: Image, data: seq<byte>, path: seq<Pixel>) {
    && path != [] && m.Edge(path[0])
    && (forall k :: 0 <= k < |path| ==> White(m, data, path[k]))
    && (forall k :: 0 < k < |path| ==> Beside(path[k - 1], path[k]))
  }

  ghost predicate Background(m: Image, data: seq<byte>, p: Pixel) {
    exists path :: Walk(m, data, path) && path[|path| - 1] == p
  }

  lemma EdgeBackground(m: Image, data: seq<byte>, p: Pixel)
    requires m.Edge(p) && White(m, data, p)
    ensures Background(m, data, p)
  {
    assert Walk(m, data, [p]);
  }

  lemma BesideBackground(m: Image, data: seq<byte>, p: Pixel, q: Pixel)
    requires Background(m, data, p) && Beside(p, q) && White(m, data, q)
    ensures Background(m, data, q)
  {
    var path :| Walk(m, data, path) && path[|path| - 1] == p;
    LongerWalk(m, data, path, q);
  }

  lemma LongerWalk(m: Image, data: seq<byte>, path: seq<Pixel>, q: Pixel)
    requires Walk(m, data, path) && Beside(path[|path| - 1], q) && White(m, data, q)
    ensures Background(m, data, q)
  {
    hide White, Beside;
    var longer := path + [q];
    forall k | 0 < k < |longer| ensures Beside(longer[k - 1], longer[k]) {
      if k < |path| {
        assert Beside(path[k - 1], path[k]);
      }
    }
    assert Walk(m, data, longer);
  }

  /** What a set of pixels must be to hold the whole background: it has the white pixels of the
      edge, and the white pixels beside any of its own. */
  ghost predicate Closed(m: Image, data: seq<byte>, s: set<Pixel>) {
    && (forall p :: m.Edge(p) && White(m, data, p) ==> p in s)
    && (forall p, q :: p in s && Beside(p, q) && White(m, data, q) ==> q in s)
  }

  lemma {:induction false} WalkStays(m: Image, data: seq<byte>, s: set<Pixel>, path: seq<Pixel>)
    requires Closed(m, data, s) && Walk(m, data, path)
    ensures path[|path| - 1] in s
    decreases |path|
  {
    if |path| > 1 {
      var init := path[..|path| - 1];
      assert Walk(m, data, init);
      WalkStays(m, data, s, init);
      assert Beside(path[|path| - 2], path[|path| - 1]);
    }
  }

  /** A closed set of background pixels is the background. */
  lemma ClosedIsBackground(m: Image, data: seq<byte>, s: set<Pixel>)
    requires Closed(m, data, s) && forall p :: p in s ==> Background(m, data, p)
    ensures forall p :: p in s <==> Background(m, data, p)
  {
    forall p | Background(m, data, p) ensures p in s {
      var path :| Walk(m, data, path) && path[|path| - 1] == p;
      WalkStays(m, data, s, path);
    }
  }

  // ---------------------------------------------------------------- the buffers

  ghost predicate Marked(m: Image, visited: array<bool>, seen: set<Pixel>)
    reads visited
  {
    && visited.Length == m.width * m.height
    && forall p :: m.Has(p) ==> 0 <= m.At(p) < visited.Length && (visited[m.At(p)] <==> p in seen)
  }

  /** The buffer is the one it was, with the alpha of exactly these pixels cleared. */
  ghost predicate Cleared(m: Image, image: array<byte>, was: seq<byte>, done: set<Pixel>)
    reads image
  {
    && image.Length == |was| == 4 * (m.width * m.height)
    && (forall p :: p in done ==> m.Has(p) && 0 <= 4 * m.At(p) < |was| - 3 && image[4 * m.At(p) + 3] == 0)
    && (forall k :: 0 <= k < |was| && image[k] != was[k] ==> exists p :: p in done && k == 4 * m.At(p) + 3)
  }

  /** The fill in progress: what is seen is cleared or still on the stack, all of it background,
      and what is white beside a cleared pixel is seen. */
  ghost predicate Filling(m: Image, was: seq<byte>, seen: set<Pixel>, done: set<Pixel>, stack: seq<Pixel>) {
    && done <= seen
    && (forall p :: p in seen ==> m.Has(p) && Background(m, was, p))
    && (forall p :: p in stack ==> p in seen)
    && (forall p :: p in seen ==> p in done || p in stack)
    && (forall p, q :: p in done && Beside(p, q) && White(m, was, q) ==> q in seen)
  }

  lemma AlphaApart(a: int, b: int)
    ensures 4 * a + 3 != 4 * b && 4 * a + 3 != 4 * b + 1 && 4 * a + 3 != 4 * b + 2
  {
  }

  lemma ColoursKept(m: Image, image: array<byte>, was: seq<byte>, done: set<Pixel>, p: Pixel)
    requires Cleared(m, image, was, done) && m.Has(p)
    ensures White(m, image[..], p) <==> White(m, was, p)
  {
    AtInside(m, p);
    hide Image.At;
    var at := 4 * m.At(p);
    forall q | q in done ensures 4 * m.At(q) + 3 != at && 4 * m.At(q) + 3 != at + 1 && 4 * m.At(q) + 3 != at + 2 {
      AlphaApart(m.At(q), m.At(p));
    }
    assert image[at] == was[at] && image[at + 1] == was[at + 1] && image[at + 2] == was[at + 2];
  }

  method Mark(m: Image, visited: array<bool>, p: Pixel, ghost seen: set<Pixel>)
    requires Marked(m, visited, seen) && m.Has(p)
    modifies visited
    ensures Marked(m, visited, seen + {p})
  {
    visited[m.At(p)] := true;
    forall q | m.Has(q) ensures 0 <= m.At(q) < visited.Length && (visited[m.At(q)] <==> q in seen + {p}) {
      AtDistinct(m, p, q);
    }
  }

  method Clear(m: Image, image: array<byte>, p: Pixel, ghost was: seq<byte>, ghost done: set<Pixel>)
    requires Cleared(m, image, was, done) && m.Has(p)
    modifies image
    ensures Cleared(m, image, was, done + {p})
  {
    AtInside(m, p);
    image[4 * m.At(p) + 3] := 0;
  }

  /** What the whole fill keeps: the two buffers, and the fill in progress. */
  ghost predicate State(m: Image, image: array<byte>, visited: array<bool>, was: seq<byte>,
                        seen: set<Pixel>, done: set<Pixel>, stack: seq<Pixel>)
    reads image, visited
  {
    Marked(m, visited, seen) && Cleared(m, image, was, done) && Filling(m, was, seen, done, stack)
  }

  ghost function Unseen(m: Image, seen: set<Pixel>): nat {
    |m.Pixels() - seen|
  }

  lemma FewerUnseen(m: Image, seen: set<Pixel>, p: Pixel)
    requires m.Has(p) && p !in seen
    ensures Unseen(m, seen + {p}) < Unseen(m, seen)
  {
    assert m.Pixels() - (seen + {p}) == (m.Pixels() - seen) - {p};
    assert p in m.Pixels() - seen;
  }

  /** One pixel looked at: nothing changes, or it is white and unseen and goes on the stack. */
  ghost predicate Pushed(m: Image, was: seq<byte>, p: Pixel, stack: seq<Pixel>, seen: set<Pixel>,
                         now: seq<Pixel>, seen': set<Pixel>) {
    && (White(m, was, p) ==> p in seen')
    && ((now == stack && seen' == seen)
        || (White(m, was, p) && p !in seen && now == stack + [p] && seen' == seen + {p}))
  }

  method Push(m: Image, image: array<byte>, visited: array<bool>, p: Pixel, stack: seq<Pixel>,
              ghost was: seq<byte>, ghost seen: set<Pixel>, ghost done: set<Pixel>)
    returns (now: seq<Pixel>, ghost seen': set<Pixel>)
    requires Marked(m, visited, seen) && Cleared(m, image, was, done) && m.Has(p)
    modifies visited
    ensures Marked(m, visited, seen') && Pushed(m, was, p, stack, seen, now, seen')
  {
    ColoursKept(m, image, was, done, p);
    now, seen' := stack, seen;
    if !visited[m.At(p)] && White(m, image[..], p) {
      Mark(m, visited, p, seen);
      now, seen' := stack + [p], seen + {p};
    }
  }

  /** Of the four neighbours of `p` those among the first `k` that the image has are looked at. */
  function Neighbour(p: Pixel, k: nat): Pixel
    requires k < 4
  {
    if k == 0 then Pixel(p.x - 1, p.y) else if k == 1 then Pixel(p.x + 1, p.y)
    else if k == 2 then Pixel(p.x, p.y - 1) else Pixel(p.x, p.y + 1)
  }

  lemma NeighboursAre(p: Pixel, q: Pixel)
    ensures Beside(p, q) <==> q == Neighbour(p, 0) || q == Neighbour(p, 1) || q == Neighbour(p, 2) || q == Neighbour(p, 3)
  {
  }

  /** The first `k` neighbours of `p` looked at. */
  ghost predicate Looked(m: Image, was: seq<byte>, p: Pixel, k: nat, stack: seq<Pixel>, seen: set<Pixel>,
                         now: seq<Pixel>, seen': set<Pixel>) {
    && seen <= seen' && (forall q :: q in seen' - seen ==> Beside(p, q) && White(m, was, q))
    && (forall j :: 0 <= j < k <= 4 && White(m, was, Neighbour(p, j)) ==> Neighbour(p, j) in seen')
    && (forall q :: q in now <==> q in stack || q in seen' - seen) && |now| - |stack| == |seen'| - |seen|
    && (Unseen(m, seen') < Unseen(m, seen) || (now == stack && seen' == seen))
  }

  lemma LookedNext(m: Image, was: seq<byte>, p: Pixel, k: nat, stack: seq<Pixel>, seen: set<Pixel>,
                   now: seq<Pixel>, seen': set<Pixel>, now': seq<Pixel>, seen'': set<Pixel>)
    requires k < 4 && Looked(m, was, p, k, stack, seen, now, seen')
    requires forall q :: q in stack ==> q in seen
    requires Pushed(m, was, Neighbour(p, k), now, seen', now', seen'')
    ensures Looked(m, was, p, k + 1, stack, seen, now', seen'')
  {
    var q := Neighbour(p, k);
    assert Beside(p, q);
    if now' != now || seen'' != seen' {
      assert m.Has(q);
      FewerUnseen(m, seen', q);
    }
    hide White, Beside, Unseen;
  }

  method PushNeighbours(m: Image, image: array<byte>, visited: array<bool>, p: Pixel, stack: seq<Pixel>,
                        ghost was: seq<byte>, ghost seen: set<Pixel>, ghost done: set<Pixel>)
    returns (now: seq<Pixel>, ghost seen': set<Pixel>)
    requires Marked(m, visited, seen) && Cleared(m, image, was, done)
    requires forall q :: q in stack ==> q in seen
    modifies visited
    ensures Marked(m, visited, seen') && Looked(m, was, p, 4, stack, seen, now, seen')
  {
    hide Marked, Cleared, White;
    now, seen' := stack, seen;
    for k := 0 to 4
      invariant Marked(m, visited, seen') && Looked(m, was, p, k, stack, seen, now, seen')
    {
      var q := Neighbour(p, k);
      ghost var before, seenBefore := now, seen';
      if m.Has(q) {
        now, seen' := Push(m, image, visited, q, now, was, seen', done);
      } else {
        OutsideNotWhite(m, was, q);
      }
      LookedNext(m, was, p, k, stack, seen, before, seenBefore, now, seen');
    }
  }

  lemma OutsideNotWhite(m: Image, was: seq<byte>, q: Pixel)
    requires !m.Has(q)
    ensures !White(m, was, q)
  {
  }

  // ---------------------------------------------------------------- the fill

  /** The pixel taken off the stack is cleared, and what is white beside it is seen. */
  lemma FillOne(m: Image, was: seq<byte>, seen: set<Pixel>, done: set<Pixel>, stack: seq<Pixel>,
                now: seq<Pixel>, seen': set<Pixel>)
    requires Filling(m, was, seen, done, stack) && stack != []
    requires Looked(m, was, stack[|stack| - 1], 4, stack[..|stack| - 1], seen, now, seen')
    ensures Filling(m, was, seen', done + {stack[|stack| - 1]}, now)
  {
    hide White, Beside, Background, Looked;
    var p, rest := stack[|stack| - 1], stack[..|stack| - 1];
    assert stack == rest + [p];
    LookedBackground(m, was, p, rest, seen, now, seen');
    LookedAll(m, was, p, rest, seen, now, seen');
  }

  lemma LookedBackground(m: Image, was: seq<byte>, p: Pixel, stack: seq<Pixel>, seen: set<Pixel>, now: seq<Pixel>, seen': set<Pixel>)
    requires Looked(m, was, p, 4, stack, seen, now, seen') && Background(m, was, p)
    ensures seen <= seen' && (forall q :: q in now <==> q in stack || q in seen' - seen)
    ensures forall q :: q in seen' - seen ==> m.Has(q) && Background(m, was, q)
  {
    forall q | q in seen' - seen ensures m.Has(q) && Background(m, was, q) {
      BesideBackground(m, was, p, q);
      assert White(m, was, q);
    }
  }

  lemma LookedAll(m: Image, was: seq<byte>, p: Pixel, stack: seq<Pixel>, seen: set<Pixel>, now: seq<Pixel>, seen': set<Pixel>)
    requires Looked(m, was, p, 4, stack, seen, now, seen')
    ensures forall q :: Beside(p, q) && White(m, was, q) ==> q in seen'
  {
    forall q | Beside(p, q) && White(m, was, q) ensures q in seen' {
      NeighboursAre(p, q);
      assert White(m, was, Neighbour(p, 0)) ==> Neighbour(p, 0) in seen';
      assert White(m, was, Neighbour(p, 1)) ==> Neighbour(p, 1) in seen';
      assert White(m, was, Neighbour(p, 2)) ==> Neighbour(p, 2) in seen';
      assert White(m, was, Neighbour(p, 3)) ==> Neighbour(p, 3) in seen';
    }
  }

  /** The inner lambda `flood_fill`: from one start pixel until the stack is empty.  Every newly seen
      pixel is pushed once, and taken off in one round of the loop. */
  method FloodFrom(m: Image, image: array<byte>, visited: array<bool>, start: Pixel,
                   ghost was: seq<byte>, ghost seen: set<Pixel>)
    returns (ghost seen': set<Pixel>, ghost rounds: nat)
    requires State(m, image, visited, was, seen, seen, []) && m.Edge(start)
    modifies image, visited
    ensures State(m, image, visited, was, seen', seen', [])
    ensures seen <= seen' && (White(m, was, start) ==> start in seen') && rounds == |seen'| - |seen|
  {
    ColoursKept(m, image, was, seen, start);
    seen', rounds := seen, 0;
    if visited[m.At(start)] || !White(m, image[..], start) { return; }
    EdgeBackground(m, was, start);
    Mark(m, visited, start, seen);
    var stack := [start];
    ghost var done := seen;
    seen' := seen + {start};
    assert State(m, image, visited, was, seen', done, stack);
    hide State, Unseen, White;
    while stack != []
      invariant State(m, image, visited, was, seen', done, stack)
      invariant seen <= seen' && start in seen' && rounds + |stack| == |seen'| - |seen|
      decreases Unseen(m, seen'), |stack|
    {
      ghost var p := stack[|stack| - 1];
      stack, seen' := FillNext(m, image, visited, stack, was, seen', done);
      done, rounds := done + {p}, rounds + 1;
    }
    StackEmpty(m, image, visited, was, seen', done);
  }

  /** One round: a pixel is taken off the stack and cleared, and its neighbours are looked at. */
  method FillNext(m: Image, image: array<byte>, visited: array<bool>, stack: seq<Pixel>,
                  ghost was: seq<byte>, ghost seen: set<Pixel>, ghost done: set<Pixel>)
    returns (now: seq<Pixel>, ghost seen': set<Pixel>)
    requires State(m, image, visited, was, seen, done, stack) && stack != []
    modifies image, visited
    ensures State(m, image, visited, was, seen', done + {stack[|stack| - 1]}, now)
    ensures seen <= seen' && |now| + 1 - |stack| == |seen'| - |seen|
    ensures Unseen(m, seen') < Unseen(m, seen) || (now == stack[..|stack| - 1] && seen' == seen)
  {
    var p, rest := stack[|stack| - 1], stack[..|stack| - 1];
    assert p in stack;
    Clear(m, image, p, was, done);
    now, seen' := PushNeighbours(m, image, visited, p, rest, was, seen, done + {p});
    FillOne(m, was, seen, done, stack, now, seen');
  }

  lemma StackEmpty(m: Image, image: array<byte>, visited: array<bool>, was: seq<byte>, seen: set<Pixel>, done: set<Pixel>)
    requires State(m, image, visited, was, seen, done, [])
    ensures done == seen
  {
    hide Marked, Cleared, White, Beside, Background;
  }

  /** A start pixel whose fill is over. */
  ghost predicate Ended(m: Image, was: seq<byte>, seen: set<Pixel>, p: Pixel) {
    White(m, was, p) ==> p in seen
  }

  /** The fills from the first `n` pixels of the top and bottom rows are over. */
  ghost predicate RowsEnded(m: Image, was: seq<byte>, seen: set<Pixel>, n: int) {
    forall i :: 0 <= i < n ==> RowPairEnded(m, was, seen, i)
  }

  ghost predicate RowPairEnded(m: Image, was: seq<byte>, seen: set<Pixel>, i: int) {
    Ended(m, was, seen, Pixel(i, 0)) && Ended(m, was, seen, Pixel(i, m.height - 1))
  }

  ghost predicate ColumnsEnded(m: Image, was: seq<byte>, seen: set<Pixel>, n: int) {
    forall i :: 0 <= i < n ==> ColumnPairEnded(m, was, seen, i)
  }

  ghost predicate ColumnPairEnded(m: Image, was: seq<byte>, seen: set<Pixel>, i: int) {
    Ended(m, was, seen, Pixel(0, i)) && Ended(m, was, seen, Pixel(m.width - 1, i))
  }

  lemma RowsNext(m: Image, was: seq<byte>, before: set<Pixel>, top: set<Pixel>, seen: set<Pixel>, x: nat)
    requires before <= top <= seen && RowsEnded(m, was, before, x)
    requires Ended(m, was, top, Pixel(x, 0)) && Ended(m, was, seen, Pixel(x, m.height - 1))
    ensures RowsEnded(m, was, seen, x + 1)
  {
    hide White;
    forall i | 0 <= i < x + 1 ensures RowPairEnded(m, was, seen, i) {
      assert i < x ==> RowPairEnded(m, was, before, i);
    }
  }

  lemma ColumnsNext(m: Image, was: seq<byte>, before: set<Pixel>, left: set<Pixel>, seen: set<Pixel>, y: nat)
    requires before <= left <= seen && ColumnsEnded(m, was, before, y)
    requires Ended(m, was, left, Pixel(0, y)) && Ended(m, was, seen, Pixel(m.width - 1, y))
    ensures ColumnsEnded(m, was, seen, y + 1)
  {
    hide White;
    forall i | 0 <= i < y + 1 ensures ColumnPairEnded(m, was, seen, i) {
      assert i < y ==> ColumnPairEnded(m, was, before, i);
    }
  }

  lemma RowsStay(m: Image, was: seq<byte>, before: set<Pixel>, after: set<Pixel>, n: int)
    requires before <= after && RowsEnded(m, was, before, n)
    ensures RowsEnded(m, was, after, n)
  {
    hide White;
    forall i | 0 <= i < n ensures RowPairEnded(m, was, after, i) {
      assert RowPairEnded(m, was, before, i);
    }
  }

  method FillRows(m: Image, image: array<byte>, visited: array<bool>, ghost was: seq<byte>, ghost seen: set<Pixel>)
    returns (ghost seen': set<Pixel>, ghost rounds: nat)
    requires State(m, image, visited, was, seen, seen, []) && m.height > 0
    modifies image, visited
    ensures State(m, image, visited, was, seen', seen', []) && seen <= seen' && RowsEnded(m, was, seen', m.width)
    ensures rounds == |seen'| - |seen|
  {
    assert RowsEnded(m, was, seen, 0);
    hide State, White, RowsEnded;
    seen', rounds := seen, 0;
    for x := 0 to m.width
      invariant State(m, image, visited, was, seen', seen', []) && seen <= seen' && RowsEnded(m, was, seen', x)
      invariant rounds == |seen'| - |seen|
    {
      ghost var before, top, r1, r2 := seen', seen', 0, 0;
      top, r1 := FloodFrom(m, image, visited, Pixel(x, 0), was, before);
      seen', r2 := FloodFrom(m, image, visited, Pixel(x, m.height - 1), was, top);
      rounds := rounds + r1 + r2;
      RowsNext(m, was, before, top, seen', x);
    }
  }

  method FillColumns(m: Image, image: array<byte>, visited: array<bool>, ghost was: seq<byte>, ghost seen: set<Pixel>)
    returns (ghost seen': set<Pixel>, ghost rounds: nat)
    requires State(m, image, visited, was, seen, seen, []) && m.width > 0
    modifies image, visited
    ensures State(m, image, visited, was, seen', seen', []) && seen <= seen' && ColumnsEnded(m, was, seen', m.height)
    ensures rounds == |seen'| - |seen|
  {
    assert ColumnsEnded(m, was, seen, 0);
    hide State, White, ColumnsEnded;
    seen', rounds := seen, 0;
    for y := 0 to m.height
      invariant State(m, image, visited, was, seen', seen', []) && seen <= seen' && ColumnsEnded(m, was, seen', y)
      invariant rounds == |seen'| - |seen|
    {
      ghost var before, left, r1, r2 := seen', seen', 0, 0;
      left, r1 := FloodFrom(m, image, visited, Pixel(0, y), was, before);
      seen', r2 := FloodFrom(m, image, visited, Pixel(m.width - 1, y), was, left);
      rounds := rounds + r1 + r2;
      ColumnsNext(m, was, before, left, seen', y);
    }
  }

  lemma EdgesEnded(m: Image, was: seq<byte>, seen: set<Pixel>, p: Pixel)
    requires RowsEnded(m, was, seen, m.width) && ColumnsEnded(m, was, seen, m.height)
    requires m.Edge(p) && White(m, was, p)
    ensures p in seen
  {
    hide White;
    assert RowPairEnded(m, was, seen, p.x) && ColumnPairEnded(m, was, seen, p.y);
  }

  lemma FilledIsBackground(m: Image, was: seq<byte>, seen: set<Pixel>)
    requires Filling(m, was, seen, seen, [])
    requires RowsEnded(m, was, seen, m.width) && ColumnsEnded(m, was, seen, m.height)
    ensures forall p :: p in seen <==> Background(m, was, p)
  {
    forall p | m.Edge(p) && White(m, was, p) ensures p in seen {
      EdgesEnded(m, was, seen, p);
    }
    hide White, Beside, Background, RowsEnded, ColumnsEnded;
    ClosedIsBackground(m, was, seen);
  }

  /** `remove_white_background`: of every byte of the buffer exactly the alpha of the background
      changes, to 0, and the background is all that is reached over white from the edge.  The fills take
      one round for each of its pixels: no pixel is pushed twice. */
  method RemoveWhiteBackground(m: Image, image: array<byte>) returns (ghost background: set<Pixel>, ghost rounds: nat)
    requires image.Length == 4 * (m.width * m.height)
    modifies image
    ensures forall p :: Background(m, old(image[..]), p) ==>
              0 <= 4 * m.At(p) < image.Length - 3 && image[4 * m.At(p) + 3] == 0
    ensures forall k :: 0 <= k < image.Length && image[k] != old(image[k]) ==>
              exists p :: Background(m, old(image[..]), p) && k == 4 * m.At(p) + 3
    ensures rounds == |background| && forall p :: p in background <==> Background(m, old(image[..]), p)
  {
    ghost var was := image[..];
    background, rounds := {}, 0;
    if m.width == 0 || m.height == 0 {
      NoBackground(m, was);
      return;
    }
    var visited := new bool[m.width * m.height](_ => false);
    ghost var seen, more: set<Pixel>, r1, r2 := {}, {}, 0, 0;
    forall p | m.Has(p) ensures 0 <= m.At(p) < visited.Length { AtInside(m, p); }
    hide Background, White;
    seen, r1 := FillRows(m, image, visited, was, {});
    more, r2 := FillColumns(m, image, visited, was, seen);
    RowsStay(m, was, seen, more, m.width);
    FilledIsBackground(m, was, more);
    ClearedBackground(m, image, was, more);
    hide State, Filling, RowsEnded, ColumnsEnded, Image.At;
    background, rounds := more, r1 + r2;
  }

  lemma ClearedBackground(m: Image, image: array<byte>, was: seq<byte>, s: set<Pixel>)
    requires Cleared(m, image, was, s) && forall p :: p in s <==> Background(m, was, p)
    ensures forall p :: Background(m, was, p) ==> 0 <= 4 * m.At(p) < image.Length - 3 && image[4 * m.At(p) + 3] == 0
    ensures forall k :: 0 <= k < image.Length && image[k] != was[k] ==> exists p :: Background(m, was, p) && k == 4 * m.At(p) + 3
  {
    hide Background;
  }

  lemma NoBackground(m: Image, was: seq<byte>)
    requires m.width == 0 || m.height == 0
    ensures forall p :: !Background(m, was, p)
  {
  }
}
