/** remove_background.py: the tool that makes each sprite's background transparent. From
    every corner not already reached, a breadth-first walk over 4-neighbours visits the
    pixels that are fully transparent or within the colour tolerance of that corner's
    colour; the matching non-transparent pixels and the corners are then cleared to
    (0, 0, 0, 0). */
module Background {
  import opened Globals

  type Byte = x: int | 0 <= x < 256

  datatype Rgba = Rgba(r: Byte, g: Byte, b: Byte, a: Byte)

  /** A pixel position (x, y), x across and y down. */
  type Coord = (int, int)

  const DefaultTolerance: int := 100
  const Cleared: Rgba := Rgba(0, 0, 0, 0)

  // ---------------------------------------------------------------------------
  // Colours

  /** The square of distance(c1, c2): red, green and blue differences, alpha ignored. */
  function Distance2(c1: Rgba, c2: Rgba): (d: int)
    ensures d >= 0
  {
    var dr := c1.r - c2.r;
    var dg := c1.g - c2.g;
    var db := c1.b - c2.b;
    Square(dr) + Square(dg) + Square(db)
  }

  function Square(v: int): (s: int)
    ensures s >= 0
  {
    if v >= 0 then v * v else (-v) * (-v)
  }

  /** distance(c1, c2) <= tolerance with the exact square root: no colour is within a
      negative tolerance. */
  predicate Within(c1: Rgba, c2: Rgba, tol: int) {
    tol >= 0 && Distance2(c1, c2) <= tol * tol
  }

  /** The distance is zero exactly for colours with the same red, green and blue. */
  lemma DistanceZero(c1: Rgba, c2: Rgba)
    ensures Distance2(c1, c2) == 0 <==> c1.r == c2.r && c1.g == c2.g && c1.b == c2.b
  {
    SquareZero(c1.r - c2.r);
    SquareZero(c1.g - c2.g);
    SquareZero(c1.b - c2.b);
  }

  lemma SquareZero(v: int)
    ensures Square(v) == 0 <==> v == 0
  {
    if v > 0 {
      assert v * v >= v;
    } else if v < 0 {
      assert (-v) * (-v) >= -v;
    }
  }

  /** The test remove_background.py:74 calls always true holds exactly for a non-negative tolerance; the
      test is symmetric and blind to alpha. */
  lemma WithinRules(c1: Rgba, c2: Rgba, tol: int)
    ensures Within(c1, c1, tol) <==> tol >= 0
    ensures Within(c1, c2, tol) <==> Within(c2, c1, tol)
    ensures Within(c1, c2, tol) <==> Within(c1.(a := 0), c2, tol)
  {
    DistanceZero(c1, c1);
    assert Square(c1.r - c2.r) == Square(c2.r - c1.r);
    assert Square(c1.g - c2.g) == Square(c2.g - c1.g);
    assert Square(c1.b - c2.b) == Square(c2.b - c1.b);
  }

  // ---------------------------------------------------------------------------
  // The pixel grid

  predicate InBounds(p: Coord, w: int, h: int) {
    0 <= p.0 < w && 0 <= p.1 < h
  }

  function Cells(w: nat, h: nat): set<Coord> {
    set x: int, y: int | 0 <= x < w && 0 <= y < h :: (x, y)
  }

  /** Every pixel of s lies inside a w by h image. */
  ghost predicate Inside(s: set<Coord>, w: int, h: int) {
    forall p :: p in s ==> InBounds(p, w, h)
  }

  lemma InsideCells(s: set<Coord>, w: nat, h: nat)
    requires Inside(s, w, h)
    ensures s <= Cells(w, h)
  {
    forall p | p in s
      ensures p in Cells(w, h)
    {
      assert InBounds(p, w, h);
      assert p == (p.0, p.1);
    }
  }

  /** The four neighbours in the order the walk tries them: left, right, up, down. */
  function Neighbours(p: Coord): seq<Coord> {
    [(p.0 - 1, p.1), (p.0 + 1, p.1), (p.0, p.1 - 1), (p.0, p.1 + 1)]
  }

  predicate Adjacent(p: Coord, q: Coord) {
    q in Neighbours(p)
  }

  /** The seeds, in the order they are tried. */
  function Corners(w: int, h: int): seq<Coord> {
    [(0, 0), (w - 1, 0), (0, h - 1), (w - 1, h - 1)]
  }

  /** A pixel the walk from a seed of colour seed goes through: fully transparent, or
      within the tolerance of the seed's colour. */
  predicate Matches(c: Rgba, seed: Rgba, tol: int) {
    c.a == 0 || Within(c, seed, tol)
  }

  /** The image as a value: its size and the colour of each pixel. */
  datatype Image = Image(width: int, height: int, at: map<Coord, Rgba>)

  function Colour(img: Image, p: Coord): Rgba {
    if InBounds(p, img.width, img.height) && p in img.at then img.at[p] else Cleared
  }

  /** img is what the pixel access object shows. */
  ghost predicate Pictures(pixels: array2<Rgba>, img: Image)
    reads pixels
  {
    && img.width == pixels.Length0 && img.height == pixels.Length1
    && forall x, y {:trigger pixels[x, y]} :: 0 <= x < pixels.Length0 && 0 <= y < pixels.Length1 ==>
         (x, y) in img.at && img.at[(x, y)] == pixels[x, y]
  }

  ghost function Snapshot(pixels: array2<Rgba>): (img: Image)
    reads pixels
    ensures Pictures(pixels, img)
  {
    Image(pixels.Length0, pixels.Length1,
          map x: int, y: int | 0 <= x < pixels.Length0 && 0 <= y < pixels.Length1 :: (x, y) := pixels[x, y])
  }

  // ---------------------------------------------------------------------------
  // The walk's bookkeeping

  /** For every visited pixel: the seed its walk started from, the pixel it was reached
      from and its distance in steps from the seed. */
  datatype Trace = Trace(owner: map<Coord, Coord>, parent: map<Coord, Coord>, depth: map<Coord, nat>)

  /** Visited pixel p hangs from its seed: a seed has depth 0 and is its own owner; any
      other pixel was reached from a visited neighbour one step nearer the same seed. */
  ghost predicate Hangs(visited: set<Coord>, t: Trace, p: Coord)
    requires t.owner.Keys == visited && t.parent.Keys == visited && t.depth.Keys == visited
    requires p in visited
  {
    && t.owner[p] in visited && t.owner[t.owner[p]] == t.owner[p]
    && (t.depth[p] == 0 <==> p == t.owner[p])
    && (t.depth[p] > 0 ==>
          t.parent[p] in visited && Adjacent(t.parent[p], p)
          && t.depth[t.parent[p]] == t.depth[p] - 1 && t.owner[t.parent[p]] == t.owner[p])
  }

  ghost predicate Forest(visited: set<Coord>, t: Trace) {
    && t.owner.Keys == visited && t.parent.Keys == visited && t.depth.Keys == visited
    && forall p {:trigger Hangs(visited, t, p)} :: p in visited ==> Hangs(visited, t, p)
  }

  /** What visited pixel p is: a pixel its seed's walk matched, cleared exactly when not
      transparent; or a seed, a corner, cleared exactly when its walk is over (it is not
      active) and the tolerance is not negative. */
  ghost predicate Labelled(img: Image, tol: int, toClear: set<Coord>, t: Trace,
                           active: set<Coord>, p: Coord)
    requires p in t.owner
  {
    && (p != t.owner[p] ==>
          Matches(Colour(img, p), Colour(img, t.owner[p]), tol)
          && (p in toClear <==> Colour(img, p).a != 0))
    && (p == t.owner[p] ==>
          p in Corners(img.width, img.height) && (p in toClear <==> p !in active && tol >= 0))
  }

  ghost predicate Labels(img: Image, tol: int, visited: set<Coord>, toClear: set<Coord>,
                         t: Trace, active: set<Coord>)
  {
    forall p {:trigger Labelled(img, tol, toClear, t, active, p)} ::
      p in visited && p in t.owner ==> Labelled(img, tol, toClear, t, active, p)
  }

  /** Neighbour k of p, when inside the image and matching colour sc, has been visited. */
  ghost predicate Reached(img: Image, tol: int, sc: Rgba, p: Coord, k: nat, visited: set<Coord>)
    requires k < 4
  {
    InBounds(Neighbours(p)[k], img.width, img.height) && Matches(Colour(img, Neighbours(p)[k]), sc, tol)
    ==> Neighbours(p)[k] in visited
  }

  /** Every neighbour of p inside the image that matches the colour of p's seed has been
      visited. */
  ghost predicate NeighboursIn(img: Image, tol: int, visited: set<Coord>, t: Trace, p: Coord)
    requires p in t.owner
  {
    forall k :: 0 <= k < 4 ==> Reached(img, tol, Colour(img, t.owner[p]), p, k, visited)
  }

  ghost predicate Closed(img: Image, tol: int, s: set<Coord>, visited: set<Coord>, t: Trace)
  {
    forall p {:trigger NeighboursIn(img, tol, visited, t, p)} ::
      p in s && p in t.owner ==> NeighboursIn(img, tol, visited, t, p)
  }

  /** The queue of the walk from cur: distinct visited pixels of cur's walk, not yet
      expanded (in done); every visited pixel is expanded, queued or being expanded. */
  ghost predicate Queued(visited: set<Coord>, done: set<Coord>, t: Trace, queue: seq<Coord>, cur: Coord,
                         expanding: set<Coord>) {
    && done <= visited
    && (forall i :: 0 <= i < |queue| ==>
          queue[i] in visited && queue[i] !in done && queue[i] !in expanding
          && queue[i] in t.owner && t.owner[queue[i]] == cur)
    && (forall i, j :: 0 <= i < j < |queue| ==> queue[i] != queue[j])
    && (forall p :: p in visited ==> p in done || p in queue || p in expanding)
  }

  /** The bookkeeping of visiting n from p in the walk from seed s. */
  function Added(t: Trace, n: Coord, s: Coord, p: Coord): Trace {
    t.(owner := t.owner[n := s], parent := t.parent[n := p],
       depth := t.depth[n := (if p in t.depth then t.depth[p] else 0) + 1])
  }

  /** The bookkeeping of starting the walk from seed s. */
  function Rooted(t: Trace, s: Coord): Trace {
    t.(owner := t.owner[s := s], parent := t.parent[s := s], depth := t.depth[s := 0])
  }

  lemma AddKeepsForest(visited: set<Coord>, t: Trace, n: Coord, s: Coord, p: Coord)
    requires Forest(visited, t) && p in visited && t.owner[p] == s && n !in visited && Adjacent(p, n)
    ensures Forest(visited + {n}, Added(t, n, s, p))
  {
    var v, t' := visited + {n}, Added(t, n, s, p);
    forall q | q in v
      ensures Hangs(v, t', q)
    {
      if q != n {
        assert Hangs(visited, t, q);
        assert t'.owner[q] == t.owner[q] && t'.depth[q] == t.depth[q] && t'.parent[q] == t.parent[q];
        if t.depth[q] > 0 {
          assert t.parent[q] != n;
        }
      } else {
        assert Hangs(visited, t, p);
        assert t'.parent[n] == p && t'.owner[p] == s && t'.depth[p] == t.depth[p];
      }
    }
  }

  lemma AddKeepsLabels(img: Image, tol: int, visited: set<Coord>, toClear: set<Coord>,
                       t: Trace, n: Coord, s: Coord, p: Coord)
    requires Labels(img, tol, visited, toClear, t, {s}) && t.owner.Keys == visited
    requires toClear <= visited && s in visited && t.owner[s] == s && n !in visited
    requires Matches(Colour(img, n), Colour(img, s), tol)
    ensures var toClear' := if Colour(img, n).a != 0 then toClear + {n} else toClear;
      Labels(img, tol, visited + {n}, toClear', Added(t, n, s, p), {s})
  {
    var toClear' := if Colour(img, n).a != 0 then toClear + {n} else toClear;
    var t' := Added(t, n, s, p);
    forall q | q in visited + {n} && q in t'.owner
      ensures Labelled(img, tol, toClear', t', {s}, q)
    {
      if q != n {
        assert Labelled(img, tol, toClear, t, {s}, q);
        assert t'.owner[q] == t.owner[q];
      }
    }
  }

  lemma AddKeepsQueued(visited: set<Coord>, done: set<Coord>, t: Trace, queue: seq<Coord>, n: Coord, s: Coord, p: Coord)
    requires Queued(visited, done, t, queue, s, {p}) && n !in visited && n != p
    ensures Queued(visited + {n}, done, Added(t, n, s, p), queue + [n], s, {p})
  {
    var t' := Added(t, n, s, p);
    var q' := queue + [n];
    forall i | 0 <= i < |q'|
      ensures q'[i] in visited + {n} && q'[i] !in done && q'[i] !in {p}
      ensures q'[i] in t'.owner && t'.owner[q'[i]] == s
    {
      if i < |queue| {
        assert q'[i] == queue[i];
      }
    }
  }

  lemma ClosedGrows(img: Image, tol: int, s: set<Coord>, v1: set<Coord>, t1: Trace,
                    v2: set<Coord>, t2: Trace)
    requires Closed(img, tol, s, v1, t1) && v1 <= v2 && s <= t1.owner.Keys
    requires forall q :: q in s ==> q in t2.owner && t2.owner[q] == t1.owner[q]
    ensures Closed(img, tol, s, v2, t2)
  {
    forall p | p in s && p in t2.owner
      ensures NeighboursIn(img, tol, v2, t2, p)
    {
      assert NeighboursIn(img, tol, v1, t1, p);
      ReachedGrows(img, tol, Colour(img, t1.owner[p]), p, 4, v1, v2);
    }
  }

  /** The state of the walk from seed s while the pixels in expanding are being expanded. */
  ghost predicate Walking(img: Image, tol: int, s: Coord, visited: set<Coord>, toClear: set<Coord>,
                          queue: seq<Coord>, done: set<Coord>, t: Trace, expanding: set<Coord>)
  {
    && Inside(visited, img.width, img.height) && toClear <= visited
    && s in visited && s in t.owner && t.owner[s] == s && s !in toClear
    && Forest(visited, t) && Labels(img, tol, visited, toClear, t, {s})
    && Queued(visited, done, t, queue, s, expanding)
  }

  /** One neighbour n of p in the walk from seed s: when it is inside the image, not yet
      visited and transparent or within the tolerance of the seed's colour, it is visited
      and queued, and cleared unless transparent; otherwise nothing changes. */
  ghost predicate Considered(img: Image, tol: int, s: Coord, p: Coord, n: Coord,
                             v: set<Coord>, c: set<Coord>, q: seq<Coord>, t: Trace,
                             v': set<Coord>, c': set<Coord>, q': seq<Coord>, t': Trace)
  {
    if InBounds(n, img.width, img.height) && n !in v && Matches(Colour(img, n), Colour(img, s), tol)
    then v' == v + {n} && q' == q + [n] && t' == Added(t, n, s, p)
         && c' == (if Colour(img, n).a != 0 then c + {n} else c)
    else v' == v && q' == q && t' == t && c' == c
  }

  lemma ConsiderKeeps(img: Image, tol: int, s: Coord, p: Coord, k: nat, done: set<Coord>,
                      v: set<Coord>, c: set<Coord>, q: seq<Coord>, t: Trace,
                      v': set<Coord>, c': set<Coord>, q': seq<Coord>, t': Trace)
    requires k < 4 && Walking(img, tol, s, v, c, q, done, t, {p}) && p in v && t.owner[p] == s
    requires Considered(img, tol, s, p, Neighbours(p)[k], v, c, q, t, v', c', q', t')
    ensures Walking(img, tol, s, v', c', q', done, t', {p})
    ensures v <= v' && t'.owner[p] == s && (v' == v ==> q' == q)
    ensures forall x :: x in v ==> t'.owner[x] == t.owner[x]
    ensures Reached(img, tol, Colour(img, s), p, k, v')
  {
    var n := Neighbours(p)[k];
    if v' != v {
      assert InBounds(n, img.width, img.height) && n != p && Adjacent(p, n);
      AddKeepsWalking(img, tol, s, p, n, done, v, c, q, t);
    }
  }

  /** Visiting the matching neighbour n of p keeps the walk's state. */
  lemma AddKeepsWalking(img: Image, tol: int, s: Coord, p: Coord, n: Coord, done: set<Coord>,
                        v: set<Coord>, c: set<Coord>, q: seq<Coord>, t: Trace)
    requires Walking(img, tol, s, v, c, q, done, t, {p}) && p in v && t.owner[p] == s
    requires InBounds(n, img.width, img.height) && n !in v && n != p && Adjacent(p, n)
    requires Matches(Colour(img, n), Colour(img, s), tol)
    ensures var c' := if Colour(img, n).a != 0 then c + {n} else c;
      Walking(img, tol, s, v + {n}, c', q + [n], done, Added(t, n, s, p), {p})
  {
    AddKeepsForest(v, t, n, s, p);
    AddKeepsLabels(img, tol, v, c, t, n, s, p);
    AddKeepsQueued(v, done, t, q, n, s, p);
    assert s != n;
  }

  lemma ReachedGrows(img: Image, tol: int, sc: Rgba, p: Coord, k: nat, v: set<Coord>, v': set<Coord>)
    requires k <= 4 && v <= v' && forall j :: 0 <= j < k ==> Reached(img, tol, sc, p, j, v)
    ensures forall j :: 0 <= j < k ==> Reached(img, tol, sc, p, j, v')
  {
    forall j | 0 <= j < k
      ensures Reached(img, tol, sc, p, j, v')
    {
      assert Reached(img, tol, sc, p, j, v);
    }
  }

  /** The owners during the walk from seed s: a pixel visited before the walk (in base,
      owned as in tb) keeps its owner, and every pixel the walk visits is owned by s. */
  ghost predicate Owned(base: set<Coord>, tb: Trace, s: Coord, visited: set<Coord>, t: Trace) {
    && tb.owner.Keys == base && base <= visited && visited <= t.owner.Keys && s !in base
    && forall q :: q in visited ==> t.owner[q] == (if q in base then tb.owner[q] else s)
  }

  lemma RootOwned(base: set<Coord>, tb: Trace, s: Coord)
    requires tb.owner.Keys == base && s !in base
    ensures Owned(base, tb, s, base + {s}, Rooted(tb, s))
  {
  }

  lemma ConsiderOwned(img: Image, tol: int, base: set<Coord>, tb: Trace, s: Coord, p: Coord, n: Coord,
                      v: set<Coord>, c: set<Coord>, q: seq<Coord>, t: Trace,
                      v': set<Coord>, c': set<Coord>, q': seq<Coord>, t': Trace)
    requires Owned(base, tb, s, v, t) && Considered(img, tol, s, p, n, v, c, q, t, v', c', q', t')
    ensures Owned(base, tb, s, v', t')
  {
    if v' != v {
      assert n !in base && t' == Added(t, n, s, p);
    }
  }

  // ---------------------------------------------------------------------------
  // The flood fill

  /** One neighbour n of p in the walk from seed s of colour sc. */
  method Consider(pixels: array2<Rgba>, ghost img: Image, tol: int, s: Coord, sc: Rgba, p: Coord, n: Coord,
                  visited0: set<Coord>, toClear0: set<Coord>, queue0: seq<Coord>, ghost t0: Trace)
    returns (visited: set<Coord>, toClear: set<Coord>, queue: seq<Coord>, ghost t: Trace)
    requires Pictures(pixels, img) && sc == Colour(img, s)
    ensures Considered(img, tol, s, p, n, visited0, toClear0, queue0, t0, visited, toClear, queue, t)
    ensures var taken := InBounds(n, img.width, img.height) && n !in visited0 && Matches(Colour(img, n), sc, tol);
      && visited == (if taken then visited0 + {n} else visited0)
      && queue == (if taken then queue0 + [n] else queue0)
      && toClear == (if taken && Colour(img, n).a != 0 then toClear0 + {n} else toClear0)
  {
    visited, toClear, queue, t := visited0, toClear0, queue0, t0;
    if 0 <= n.0 < pixels.Length0 && 0 <= n.1 < pixels.Length1 && n !in visited {
      var c := pixels[n.0, n.1];
      var matched := false;
      if c.a == 0 {
        matched := true;
      } else if Within(c, sc, tol) {
        matched := true;
        toClear := toClear + {n};
      }
      if matched {
        visited := visited + {n};
        queue := queue + [n];
        t := Added(t, n, s, p);
      }
    }
  }

  /** Expanding pixel p of the walk from seed s, whose colour is sc, after its first k
      neighbours: the walk's state kept, nothing visited before relabelled, and those k
      neighbours reached. */
  ghost predicate Expanding(img: Image, tol: int, s: Coord, sc: Rgba, p: Coord, k: nat, done: set<Coord>,
                            visited0: set<Coord>, queue0: seq<Coord>, t0: Trace,
                            visited: set<Coord>, toClear: set<Coord>, queue: seq<Coord>, t: Trace)
  {
    && k <= 4 && sc == Colour(img, s)
    && Walking(img, tol, s, visited, toClear, queue, done, t, {p})
    && visited0 <= visited && p in visited && t.owner[p] == s && t0.owner.Keys == visited0
    && (forall q :: q in visited0 ==> t.owner[q] == t0.owner[q])
    && (forall j :: 0 <= j < k ==> Reached(img, tol, sc, p, j, visited))
    && (visited == visited0 ==> queue == queue0)
  }

  lemma ExpandStep(img: Image, tol: int, s: Coord, sc: Rgba, p: Coord, k: nat, done: set<Coord>,
                   visited0: set<Coord>, queue0: seq<Coord>, t0: Trace,
                   v: set<Coord>, c: set<Coord>, q: seq<Coord>, t: Trace,
                   v': set<Coord>, c': set<Coord>, q': seq<Coord>, t': Trace)
    requires k < 4 && Expanding(img, tol, s, sc, p, k, done, visited0, queue0, t0, v, c, q, t)
    requires Considered(img, tol, s, p, Neighbours(p)[k], v, c, q, t, v', c', q', t')
    ensures Expanding(img, tol, s, sc, p, k + 1, done, visited0, queue0, t0, v', c', q', t')
  {
    ConsiderKeeps(img, tol, s, p, k, done, v, c, q, t, v', c', q', t');
    ReachedGrows(img, tol, sc, p, k, v, v');
  }

  /** Expanding pixel p of the walk from seed s, whose colour is sc: its four
      neighbours considered in turn. */
  method Expand(pixels: array2<Rgba>, ghost img: Image, tol: int, s: Coord, sc: Rgba, p: Coord, ghost done: set<Coord>,
                ghost base: set<Coord>, ghost tb: Trace,
                visited0: set<Coord>, toClear0: set<Coord>, queue0: seq<Coord>, ghost t0: Trace)
    returns (visited: set<Coord>, toClear: set<Coord>, queue: seq<Coord>, ghost t: Trace)
    requires Pictures(pixels, img) && Walking(img, tol, s, visited0, toClear0, queue0, done, t0, {p})
    requires sc == Colour(img, s) && p in visited0 && t0.owner[p] == s && Owned(base, tb, s, visited0, t0)
    ensures Walking(img, tol, s, visited, toClear, queue, done, t, {p}) && Owned(base, tb, s, visited, t)
    ensures visited0 <= visited && t.owner[p] == s
    ensures forall q :: q in visited0 ==> t.owner[q] == t0.owner[q]
    ensures NeighboursIn(img, tol, visited, t, p)
    ensures visited == visited0 ==> queue == queue0
  {
    visited, toClear, queue, t := visited0, toClear0, queue0, t0;
    for k := 0 to 4
      invariant Expanding(img, tol, s, sc, p, k, done, visited0, queue0, t0, visited, toClear, queue, t)
      invariant Owned(base, tb, s, visited, t)
    {
      ghost var v, c, q, tr := visited, toClear, queue, t;
      visited, toClear, queue, t := Consider(pixels, img, tol, s, sc, p, Neighbours(p)[k], visited, toClear, queue, t);
      ExpandStep(img, tol, s, sc, p, k, done, visited0, queue0, t0, v, c, q, tr, visited, toClear, queue, t);
      ConsiderOwned(img, tol, base, tb, s, p, Neighbours(p)[k], v, c, q, tr, visited, toClear, queue, t);
    }
  }

  /** The walk from seed s, whose colour is sc, between two pixels taken off the queue:
      the pixels in done are expanded, and pops of them have been taken off a queue. */
  ghost predicate Walked(img: Image, tol: int, s: Coord, sc: Rgba, visited0: set<Coord>,
                         visited: set<Coord>, toClear: set<Coord>, queue: seq<Coord>,
                         done: set<Coord>, t: Trace, pops: nat)
  {
    && sc == Colour(img, s) && Walking(img, tol, s, visited, toClear, queue, done, t, {})
    && Closed(img, tol, done, visited, t) && visited0 <= visited && pops == |done|
  }

  /** Taking the front pixel off the queue of the walk: it is visited and not yet
      expanded, and the walk is now expanding it. */
  lemma Popped(img: Image, tol: int, s: Coord, sc: Rgba, visited0: set<Coord>,
               visited: set<Coord>, toClear: set<Coord>, queue: seq<Coord>,
               done: set<Coord>, t: Trace, pops: nat)
    requires Walked(img, tol, s, sc, visited0, visited, toClear, queue, done, t, pops) && queue != []
    ensures Walking(img, tol, s, visited, toClear, queue[1..], done, t, {queue[0]})
    ensures queue[0] in visited && queue[0] !in done && t.owner[queue[0]] == s
    ensures Closed(img, tol, done, visited, t) && done <= visited && t.owner.Keys == visited
  {
    PopKeepsQueued(visited, done, t, queue, s);
  }

  /** With the queue empty, every visited pixel has been expanded. */
  lemma WalkOver(img: Image, tol: int, s: Coord, sc: Rgba, visited0: set<Coord>,
                 visited: set<Coord>, toClear: set<Coord>, done: set<Coord>, t: Trace, pops: nat)
    requires Walked(img, tol, s, sc, visited0, visited, toClear, [], done, t, pops)
    ensures done == visited
    ensures Walking(img, tol, s, visited, toClear, [], visited, t, {})
    ensures Closed(img, tol, visited, visited, t) && visited0 <= visited && pops == |visited|
  {
  }

  /** The while loop over the queue of the walk from seed s, whose colour is sc: each
      pixel taken off the front is expanded. */
  method Walk(pixels: array2<Rgba>, ghost img: Image, tol: int, s: Coord, sc: Rgba, ghost base: set<Coord>, ghost tb: Trace,
              visited0: set<Coord>, toClear0: set<Coord>,
              queue0: seq<Coord>, ghost done0: set<Coord>, ghost t0: Trace, ghost pops0: nat)
    returns (visited: set<Coord>, toClear: set<Coord>, ghost t: Trace, ghost pops: nat)
    requires Pictures(pixels, img) && Walking(img, tol, s, visited0, toClear0, queue0, done0, t0, {})
    requires sc == Colour(img, s) && Owned(base, tb, s, visited0, t0)
    requires Closed(img, tol, done0, visited0, t0) && pops0 == |done0|
    ensures Walking(img, tol, s, visited, toClear, [], visited, t, {})
    ensures Closed(img, tol, visited, visited, t) && visited0 <= visited && Owned(base, tb, s, visited, t)
    ensures pops == |visited|
  {
    visited, toClear, t, pops := visited0, toClear0, t0, pops0;
    var queue := queue0;
    ghost var done := done0;
    while queue != []
      invariant Walked(img, tol, s, sc, visited0, visited, toClear, queue, done, t, pops)
      invariant Owned(base, tb, s, visited, t)
      decreases |Cells(img.width, img.height) - visited|, |queue|
    {
      var p := queue[0];
      Popped(img, tol, s, sc, visited0, visited, toClear, queue, done, t, pops);
      queue := queue[1..];
      ghost var v0, tr0 := visited, t;
      visited, toClear, queue, t := Expand(pixels, img, tol, s, sc, p, done, base, tb, visited, toClear, queue, t);
      Expanded(img, tol, s, sc, p, visited0, v0, tr0, done, visited, toClear, queue, t, pops);
      done, pops := done + {p}, pops + 1;
    }
    WalkOver(img, tol, s, sc, visited0, visited, toClear, done, t, pops);
  }

  /** Between seeds: every visited pixel inside the image, hanging from its seed and
      labelled, with every matching neighbour of a visited pixel visited. */
  ghost predicate Filled(img: Image, tol: int, visited: set<Coord>, toClear: set<Coord>, t: Trace)
  {
    && Inside(visited, img.width, img.height) && toClear <= visited
    && Forest(visited, t) && Labels(img, tol, visited, toClear, t, {})
    && Closed(img, tol, visited, visited, t)
  }

  /** The loops of remove_bg before the apply loop: the pixels to clear, the visited set
      and, as ghosts, the walk's bookkeeping and the number of pixels taken off a queue.
      The result is the reference fill: the corners tried in order, each one already
      reached skipped, and the pixels cleared exactly those Marked. */
  method FloodFill(pixels: array2<Rgba>, ghost img: Image, tol: int)
    returns (toClear: set<Coord>, visited: set<Coord>, ghost t: Trace, ghost pops: nat)
    requires Pictures(pixels, img) && pixels.Length0 > 0 && pixels.Length1 > 0
    ensures Filled(img, tol, visited, toClear, t)
    ensures visited == Fill(img, tol, 4) && toClear == Marked(img, tol)
    ensures forall q :: q in visited ==> (t.owner[q] == q <==> q in Seeds(img, tol, 4))
    ensures forall k :: 0 <= k < 4 ==> Corners(img.width, img.height)[k] in visited
    ensures pops == |visited| <= pixels.Length0 * pixels.Length1
  {
    var seeds := Corners(pixels.Length0, pixels.Length1);
    toClear, visited := {}, {};
    t := Trace(map[], map[], map[]);
    pops := 0;
    for i := 0 to 4
      invariant Seeding(img, tol, i, visited, toClear, t, pops)
      invariant Following(img, tol, i, visited, t)
    {
      var s := seeds[i];
      ghost var v0, t0 := visited, t;
      if s !in visited {
        visited, toClear, t, pops := FillFrom(pixels, img, tol, s, visited, toClear, t, pops);
        FollowSeed(img, tol, i, v0, t0, visited, t);
      } else {
        FollowSkip(img, tol, i, visited, t);
      }
      NextSeed(img, tol, i, v0, visited, toClear, t, pops);
    }
    WorkBound(img.width, img.height, visited);
    MarkedExactly(img, tol, visited, toClear, t);
  }

  /** The seed loop after the first i corners: those corners visited, the fill so far
      closed and labelled, and one dequeue per visited pixel. */
  ghost predicate Seeding(img: Image, tol: int, i: nat, visited: set<Coord>, toClear: set<Coord>,
                          t: Trace, pops: nat)
  {
    && i <= 4 && Filled(img, tol, visited, toClear, t) && pops == |visited|
    && forall k :: 0 <= k < i ==> Corners(img.width, img.height)[k] in visited
  }

  lemma NextSeed(img: Image, tol: int, i: nat, v0: set<Coord>, visited: set<Coord>, toClear: set<Coord>,
                 t: Trace, pops: nat)
    requires i < 4 && (forall k :: 0 <= k < i ==> Corners(img.width, img.height)[k] in v0)
    requires v0 <= visited && Corners(img.width, img.height)[i] in visited
    requires Filled(img, tol, visited, toClear, t) && pops == |visited|
    ensures Seeding(img, tol, i + 1, visited, toClear, t, pops)
  {
  }

  /** The seed loop after the first i corners, against the reference: the visited set is
      the reference fill of those corners, and the pixels that own themselves are
      exactly their seeds. */
  ghost predicate Following(img: Image, tol: int, i: nat, visited: set<Coord>, t: Trace)
  {
    && i <= 4 && visited == Fill(img, tol, i) && visited <= t.owner.Keys
    && Seeds(img, tol, i) <= visited
    && forall q :: q in visited ==> (t.owner[q] == q <==> q in Seeds(img, tol, i))
  }

  /** Corner i, already visited, is skipped. */
  lemma FollowSkip(img: Image, tol: int, i: nat, visited: set<Coord>, t: Trace)
    requires i < 4 && Following(img, tol, i, visited, t) && Corners(img.width, img.height)[i] in visited
    ensures Following(img, tol, i + 1, visited, t)
  {
    assert Fill(img, tol, i + 1) == visited && Seeds(img, tol, i + 1) == Seeds(img, tol, i);
  }

  /** Corner i, not yet visited, seeds a walk that adds what it reaches. */
  lemma FollowSeed(img: Image, tol: int, i: nat, v0: set<Coord>, t0: Trace, visited: set<Coord>, t: Trace)
    requires i < 4 && Following(img, tol, i, v0, t0)
    requires var s := Corners(img.width, img.height)[i];
      && s !in v0 && s in visited
      && visited == v0 + Reach(img, tol, s, v0) && Owned(v0, t0, s, visited, t)
    ensures Following(img, tol, i + 1, visited, t)
  {
    var s := Corners(img.width, img.height)[i];
    assert Fill(img, tol, i + 1) == visited && Seeds(img, tol, i + 1) == Seeds(img, tol, i) + {s};
    SeedOwners(v0, t0, s, visited, t, Seeds(img, tol, i));
  }

  /** After the walk from s, the pixels that own themselves are the earlier seeds and s. */
  lemma SeedOwners(v0: set<Coord>, t0: Trace, s: Coord, visited: set<Coord>, t: Trace, seeds: set<Coord>)
    requires Owned(v0, t0, s, visited, t) && seeds <= v0
    requires forall q :: q in v0 ==> (t0.owner[q] == q <==> q in seeds)
    ensures forall q :: q in visited ==> (t.owner[q] == q <==> q in seeds + {s})
  {
    forall q | q in visited
      ensures t.owner[q] == q <==> q in seeds + {s}
    {
      if q in v0 {
        assert t.owner[q] == t0.owner[q];
      }
    }
  }

  /** The walk from the unvisited corner s, then the seed's own clearing. */
  method FillFrom(pixels: array2<Rgba>, ghost img: Image, tol: int, s: Coord, visited0: set<Coord>, toClear0: set<Coord>,
                  ghost t0: Trace, ghost pops0: nat)
    returns (visited: set<Coord>, toClear: set<Coord>, ghost t: Trace, ghost pops: nat)
    requires Pictures(pixels, img) && Filled(img, tol, visited0, toClear0, t0)
    requires s !in visited0 && pops0 == |visited0|
    requires s in Corners(img.width, img.height) && InBounds(s, img.width, img.height)
    ensures Filled(img, tol, visited, toClear, t) && pops == |visited| && s in visited
    ensures visited == visited0 + Reach(img, tol, s, visited0) && Owned(visited0, t0, s, visited, t)
  {
    var sc := pixels[s.0, s.1];
    var queue := [s];
    StartSeed(img, tol, visited0, toClear0, t0, s);
    RootOwned(visited0, t0, s);
    visited, toClear, t, pops := Walk(pixels, img, tol, s, sc, visited0, t0, visited0 + {s}, toClear0, queue, visited0, Rooted(t0, s), pops0);
    WithinRules(sc, sc, tol);
    ghost var c := toClear;
    if Within(sc, sc, tol) {
      toClear := toClear + {s};
    }
    FinishSeed(img, tol, s, visited, c, t);
    WalkReach(img, tol, s, visited0, t0, visited, toClear, t);
  }

  /** After expanding p: p is done, and the walk either visited more pixels or has a
      shorter queue. */
  lemma Expanded(img: Image, tol: int, s: Coord, sc: Rgba, p: Coord, visited0: set<Coord>, v0: set<Coord>,
                  t0: Trace, done: set<Coord>, v: set<Coord>, c: set<Coord>, q: seq<Coord>, t: Trace, pops: nat)
    requires sc == Colour(img, s) && visited0 <= v0 && pops == |done|
    requires Walking(img, tol, s, v, c, q, done, t, {p}) && p in v && p !in done && t.owner[p] == s
    requires Closed(img, tol, done, v0, t0) && done <= v0 && t0.owner.Keys == v0 && v0 <= v
    requires forall x :: x in v0 ==> t.owner[x] == t0.owner[x]
    requires NeighboursIn(img, tol, v, t, p)
    ensures Walked(img, tol, s, sc, visited0, v, c, q, done + {p}, t, pops + 1)
    ensures v0 != v ==> |Cells(img.width, img.height) - v| < |Cells(img.width, img.height) - v0|
  {
    ClosedGrows(img, tol, done, v0, t0, v, t);
    DoneGrows(img, tol, v, done, t, q, s, p);
    if v0 != v {
      InsideCells(v, img.width, img.height);
      StrictlyFewer(Cells(img.width, img.height), v0, v);
    }
  }

  /** Expanding p ends with p among the done pixels. */
  lemma DoneGrows(img: Image, tol: int, visited: set<Coord>, done: set<Coord>, t: Trace,
                  queue: seq<Coord>, s: Coord, p: Coord)
    requires Queued(visited, done, t, queue, s, {p}) && p in visited && p !in done && p in t.owner
    requires Closed(img, tol, done, visited, t) && NeighboursIn(img, tol, visited, t, p)
    ensures Queued(visited, done + {p}, t, queue, s, {}) && Closed(img, tol, done + {p}, visited, t)
    ensures |done + {p}| == |done| + 1
  {
  }

  /** Starting the walk from an unvisited corner s. */
  lemma StartSeed(img: Image, tol: int, visited: set<Coord>, toClear: set<Coord>, t: Trace, s: Coord)
    requires Filled(img, tol, visited, toClear, t) && s !in visited
    requires s in Corners(img.width, img.height) && InBounds(s, img.width, img.height)
    ensures Walking(img, tol, s, visited + {s}, toClear, [s], visited, Rooted(t, s), {})
    ensures Closed(img, tol, visited, visited + {s}, Rooted(t, s))
  {
    RootKeepsForest(visited, t, s);
    RootKeepsLabels(img, tol, visited, toClear, t, s);
    ClosedGrows(img, tol, visited, visited, t, visited + {s}, Rooted(t, s));
  }

  lemma RootKeepsForest(visited: set<Coord>, t: Trace, s: Coord)
    requires Forest(visited, t) && s !in visited
    ensures Forest(visited + {s}, Rooted(t, s))
  {
    var t' := Rooted(t, s);
    forall q | q in visited + {s}
      ensures Hangs(visited + {s}, t', q)
    {
      if q != s {
        assert Hangs(visited, t, q);
        assert t'.owner[q] == t.owner[q] && t'.depth[q] == t.depth[q] && t'.parent[q] == t.parent[q];
        assert t.owner[q] != s;
        if t.depth[q] > 0 {
          assert t.parent[q] != s;
        }
      }
    }
  }

  lemma RootKeepsLabels(img: Image, tol: int, visited: set<Coord>, toClear: set<Coord>, t: Trace, s: Coord)
    requires Labels(img, tol, visited, toClear, t, {}) && t.owner.Keys == visited
    requires toClear <= visited && s !in visited && s in Corners(img.width, img.height)
    ensures Labels(img, tol, visited + {s}, toClear, Rooted(t, s), {s})
  {
    var t' := Rooted(t, s);
    forall q | q in visited + {s} && q in t'.owner
      ensures Labelled(img, tol, toClear, t', {s}, q)
    {
      if q != s {
        assert Labelled(img, tol, toClear, t, {}, q);
      }
    }
  }

  /** The seed's own clearing once its walk is over. */
  lemma FinishSeed(img: Image, tol: int, s: Coord, visited: set<Coord>, toClear: set<Coord>, t: Trace)
    requires Walking(img, tol, s, visited, toClear, [], visited, t, {})
    requires Closed(img, tol, visited, visited, t)
    ensures Filled(img, tol, visited, if tol >= 0 then toClear + {s} else toClear, t)
  {
    var c' := if tol >= 0 then toClear + {s} else toClear;
    forall q | q in visited && q in t.owner
      ensures Labelled(img, tol, c', t, {}, q)
    {
      assert Labelled(img, tol, toClear, t, {s}, q);
    }
  }

  lemma PopKeepsQueued(visited: set<Coord>, done: set<Coord>, t: Trace, queue: seq<Coord>, s: Coord)
    requires Queued(visited, done, t, queue, s, {}) && queue != []
    ensures Queued(visited, done, t, queue[1..], s, {queue[0]})
    ensures queue[0] in visited && queue[0] !in done && queue[0] in t.owner && t.owner[queue[0]] == s
  {
  }

  lemma StrictlyFewer(all: set<Coord>, a: set<Coord>, b: set<Coord>)
    requires a <= b <= all && a != b
    ensures |all - b| < |all - a|
  {
    var x :| x in b && x !in a;
    assert all - b <= (all - a) - {x};
    assert |(all - a) - {x}| == |all - a| - 1;
    SubsetCard(all - b, (all - a) - {x});
  }

  lemma {:induction false} SubsetCard(a: set<Coord>, b: set<Coord>)
    requires a <= b
    ensures |a| <= |b|
    decreases |b|
  {
    if a != {} {
      var x :| x in a;
      SubsetCard(a - {x}, b - {x});
    }
  }

  // ---------------------------------------------------------------------------
  // Applying the result

  /** The apply loop: every pixel of toClear set to (0, 0, 0, 0), in whatever order the
      set yields them; every other pixel untouched. */
  method Apply(pixels: array2<Rgba>, toClear: set<Coord>)
    requires Inside(toClear, pixels.Length0, pixels.Length1)
    modifies pixels
    ensures forall x, y :: 0 <= x < pixels.Length0 && 0 <= y < pixels.Length1 ==>
              pixels[x, y] == if (x, y) in toClear then Cleared else old(pixels[x, y])
  {
    var rest := toClear;
    while rest != {}
      invariant rest <= toClear
      invariant forall x, y :: 0 <= x < pixels.Length0 && 0 <= y < pixels.Length1 ==>
                  pixels[x, y] == if (x, y) in toClear - rest then Cleared else old(pixels[x, y])
      decreases |rest|
    {
      var p :| p in rest;
      assert InBounds(p, pixels.Length0, pixels.Length1);
      pixels[p.0, p.1] := Cleared;
      rest := rest - {p};
    }
  }

  /** remove_bg on an image that may be missing: nothing happens to a missing file or to
      an image without pixels (where reading the corner fails and the error is reported);
      otherwise the reference fill's Marked pixels are cleared and the rest kept. */
  method RemoveBg(image: Option<array2<Rgba>>, tol: int)
    returns (cleared: set<Coord>, visited: set<Coord>, ghost before: Image, ghost t: Trace)
    modifies if image.Some? then {image.value} else {}
    ensures image.None? || image.value.Length0 == 0 || image.value.Length1 == 0 ==>
              cleared == {} && visited == {} && (image.Some? ==> unchanged(image.value))
    ensures image.Some? && image.value.Length0 > 0 && image.value.Length1 > 0 ==>
              var pixels := image.value;
              && before == old(Snapshot(pixels)) && Filled(before, tol, visited, cleared, t)
              && visited == Fill(before, tol, 4) && cleared == Marked(before, tol)
              && (forall k :: 0 <= k < 4 ==> Corners(pixels.Length0, pixels.Length1)[k] in visited)
              && (forall x, y :: 0 <= x < pixels.Length0 && 0 <= y < pixels.Length1 ==>
                    pixels[x, y] == if (x, y) in cleared then Cleared else old(pixels[x, y]))
  {
    cleared, visited, before, t := {}, {}, Image(0, 0, map[]), Trace(map[], map[], map[]);
    if image.None? {
      return;
    }
    var pixels := image.value;
    if pixels.Length0 == 0 || pixels.Length1 == 0 {
      return;
    }
    cleared, visited, before, t := Clean(pixels, tol);
  }

  /** remove_bg on an image with pixels: the flood fill, then the apply loop. */
  method Clean(pixels: array2<Rgba>, tol: int)
    returns (cleared: set<Coord>, visited: set<Coord>, ghost before: Image, ghost t: Trace)
    requires pixels.Length0 > 0 && pixels.Length1 > 0
    modifies pixels
    ensures before == old(Snapshot(pixels)) && Filled(before, tol, visited, cleared, t)
    ensures visited == Fill(before, tol, 4) && cleared == Marked(before, tol)
    ensures forall k :: 0 <= k < 4 ==> Corners(pixels.Length0, pixels.Length1)[k] in visited
    ensures forall x, y :: 0 <= x < pixels.Length0 && 0 <= y < pixels.Length1 ==>
              pixels[x, y] == if (x, y) in cleared then Cleared else old(pixels[x, y])
  {
    ghost var pops;
    before := Snapshot(pixels);
    cleared, visited, t, pops := FloodFill(pixels, before, tol);
    Apply(pixels, cleared);
  }

  // ---------------------------------------------------------------------------
  // The reference fill

  /** One step of a walk from a seed of colour sc: to a neighbour inside the image, not
      blocked, transparent or within the tolerance of sc. */
  ghost predicate Step(img: Image, tol: int, sc: Rgba, blocked: set<Coord>, p: Coord, n: Coord) {
    Adjacent(p, n) && InBounds(n, img.width, img.height) && n !in blocked && Matches(Colour(img, n), sc, tol)
  }

  /** path starts at seed s and every step of it is a Step of the walk from s. */
  ghost predicate WalkPath(img: Image, tol: int, s: Coord, blocked: set<Coord>, path: seq<Coord>) {
    && |path| > 0 && path[0] == s
    && forall i :: 0 <= i < |path| - 1 ==> Step(img, tol, Colour(img, s), blocked, path[i], path[i + 1])
  }

  ghost predicate Reachable(img: Image, tol: int, s: Coord, blocked: set<Coord>, p: Coord) {
    exists path :: WalkPath(img, tol, s, blocked, path) && path[|path| - 1] == p
  }

  /** The pixels inside the image that a walk from s reaches without entering blocked. */
  ghost function Reach(img: Image, tol: int, s: Coord, blocked: set<Coord>): set<Coord> {
    set x: int, y: int | 0 <= x < img.width && 0 <= y < img.height && Reachable(img, tol, s, blocked, (x, y)) :: (x, y)
  }

  /** The pixels visited after the first k corners: a corner already visited is skipped,
      any other adds what its walk reaches around the pixels visited before it. */
  ghost function Fill(img: Image, tol: int, k: nat): set<Coord>
    requires k <= 4
  {
    if k == 0 then {}
    else
      var v := Fill(img, tol, k - 1);
      var c := Corners(img.width, img.height)[k - 1];
      if c in v then v else v + Reach(img, tol, c, v)
  }

  /** The corners among the first k that start a walk. */
  ghost function Seeds(img: Image, tol: int, k: nat): set<Coord>
    requires k <= 4
  {
    if k == 0 then {}
    else
      var c := Corners(img.width, img.height)[k - 1];
      Seeds(img, tol, k - 1) + (if c in Fill(img, tol, k - 1) then {} else {c})
  }

  /** The pixels remove_bg clears: of the visited pixels, the seeds when the tolerance is
      not negative and the others that are not fully transparent. */
  ghost function Marked(img: Image, tol: int): set<Coord> {
    set q | q in Fill(img, tol, 4) && (if q in Seeds(img, tol, 4) then tol >= 0 else Colour(img, q).a != 0)
  }

  lemma ReachSeed(img: Image, tol: int, s: Coord, blocked: set<Coord>)
    requires InBounds(s, img.width, img.height)
    ensures s in Reach(img, tol, s, blocked)
  {
    assert WalkPath(img, tol, s, blocked, [s]);
  }

  /** A finished walk from s, started with base visited: it visited exactly the pixels it
      reaches around base. */
  lemma WalkReach(img: Image, tol: int, s: Coord, base: set<Coord>, tb: Trace,
                  visited: set<Coord>, toClear: set<Coord>, t: Trace)
    requires Filled(img, tol, visited, toClear, t) && Forest(base, tb)
    requires Owned(base, tb, s, visited, t) && s in visited
    ensures visited == base + Reach(img, tol, s, base)
  {
    forall q | q in visited && q !in base
      ensures q in Reach(img, tol, s, base)
    {
      var path := PathTo(visited, t, q);
      forall i | 0 <= i < |path| - 1
        ensures Step(img, tol, Colour(img, s), base, path[i], path[i + 1])
      {
        var n := path[i + 1];
        assert Hangs(visited, t, n) && Labelled(img, tol, toClear, t, {}, n);
        OwnedOutside(base, tb, s, visited, t, n);
      }
      assert WalkPath(img, tol, s, base, path);
      assert q == (q.0, q.1);
    }
    forall q | q in Reach(img, tol, s, base)
      ensures q in visited
    {
      var path :| WalkPath(img, tol, s, base, path) && path[|path| - 1] == q;
      WalkedPath(img, tol, s, base, tb, visited, toClear, t, path, |path| - 1);
    }
  }

  /** Every pixel of a walk path from s is visited and owned by s. */
  lemma {:induction false} WalkedPath(img: Image, tol: int, s: Coord, base: set<Coord>, tb: Trace,
                                      visited: set<Coord>, toClear: set<Coord>, t: Trace,
                                      path: seq<Coord>, i: nat)
    requires Filled(img, tol, visited, toClear, t) && Owned(base, tb, s, visited, t) && s in visited
    requires WalkPath(img, tol, s, base, path) && i < |path|
    ensures path[i] in visited && t.owner[path[i]] == s
  {
    if i > 0 {
      WalkedPath(img, tol, s, base, tb, visited, toClear, t, path, i - 1);
      var p, n := path[i - 1], path[i];
      assert Step(img, tol, Colour(img, s), base, p, n);
      assert NeighboursIn(img, tol, visited, t, p);
      var k :| 0 <= k < 4 && Neighbours(p)[k] == n;
      assert Reached(img, tol, Colour(img, s), p, k, visited);
    }
  }

  /** A pixel owned by s lies outside the pixels visited before the walk from s. */
  lemma OwnedOutside(base: set<Coord>, tb: Trace, s: Coord, visited: set<Coord>, t: Trace, n: Coord)
    requires Owned(base, tb, s, visited, t) && Forest(base, tb) && n in visited && t.owner[n] == s
    ensures n !in base
  {
    assert n in base ==> Hangs(base, tb, n);
  }

  /** The finished fill clears exactly the Marked pixels. */
  lemma MarkedExactly(img: Image, tol: int, visited: set<Coord>, toClear: set<Coord>, t: Trace)
    requires Filled(img, tol, visited, toClear, t) && Following(img, tol, 4, visited, t)
    ensures toClear == Marked(img, tol)
  {
    forall q
      ensures q in toClear <==> q in Marked(img, tol)
    {
      ClearedExactly(img, tol, visited, toClear, t, q);
    }
  }

  /** The loop at the end of the script: remove_bg called with its default tolerance.
      Every corner is then cleared or was fully transparent already. */
  method RemoveBgDefault(image: Option<array2<Rgba>>)
    returns (cleared: set<Coord>, visited: set<Coord>, ghost before: Image, ghost t: Trace)
    modifies if image.Some? then {image.value} else {}
    ensures image.None? || image.value.Length0 == 0 || image.value.Length1 == 0 ==>
              cleared == {} && visited == {} && (image.Some? ==> unchanged(image.value))
    ensures image.Some? && image.value.Length0 > 0 && image.value.Length1 > 0 ==>
              var pixels := image.value;
              && before == old(Snapshot(pixels)) && cleared == Marked(before, DefaultTolerance)
              && (forall x, y :: 0 <= x < pixels.Length0 && 0 <= y < pixels.Length1 ==>
                    pixels[x, y] == if (x, y) in cleared then Cleared else old(pixels[x, y]))
              && forall k :: 0 <= k < 4 ==>
                   var c := Corners(pixels.Length0, pixels.Length1)[k];
                   c in cleared || Colour(before, c).a == 0
  {
    cleared, visited, before, t := RemoveBg(image, DefaultTolerance);
    if image.Some? && image.value.Length0 > 0 && image.value.Length1 > 0 {
      forall k | 0 <= k < 4
        ensures var c := Corners(before.width, before.height)[k]; c in cleared || Colour(before, c).a == 0
      {
        CornersCleared(before, DefaultTolerance, k);
      }
    }
  }

  /** The reference fill only grows from one corner to the next. */
  lemma {:induction false} FillGrows(img: Image, tol: int, j: nat, k: nat)
    requires j <= k <= 4
    ensures Fill(img, tol, j) <= Fill(img, tol, k)
    decreases k
  {
    if j < k {
      FillGrows(img, tol, j, k - 1);
    }
  }

  /** Every corner is visited: a corner not reached before its turn seeds a walk. */
  lemma CornersFilled(img: Image, tol: int, k: nat)
    requires img.width > 0 && img.height > 0 && k < 4
    ensures Corners(img.width, img.height)[k] in Fill(img, tol, 4)
  {
    var c := Corners(img.width, img.height)[k];
    ReachSeed(img, tol, c, Fill(img, tol, k));
    assert c in Fill(img, tol, k + 1);
    FillGrows(img, tol, k + 1, 4);
  }

  /** With a tolerance that is not negative, a corner is cleared unless it is already
      fully transparent. */
  lemma CornersCleared(img: Image, tol: int, k: nat)
    requires img.width > 0 && img.height > 0 && tol >= 0 && k < 4
    ensures var c := Corners(img.width, img.height)[k];
      c in Marked(img, tol) || Colour(img, c).a == 0
  {
    CornersFilled(img, tol, k);
  }

  // ---------------------------------------------------------------------------
  // What the fill means

  /** The chain of parents from the seed of p down to p. */
  ghost function PathTo(visited: set<Coord>, t: Trace, p: Coord): (path: seq<Coord>)
    requires Forest(visited, t) && p in visited
    ensures |path| == t.depth[p] + 1 && path[0] == t.owner[p] && path[|path| - 1] == p
    ensures forall i :: 0 <= i < |path| ==>
              path[i] in visited && t.owner[path[i]] == t.owner[p] && t.depth[path[i]] == i
    ensures forall i :: 0 <= i < |path| - 1 ==> Adjacent(path[i], path[i + 1])
    decreases t.depth[p]
  {
    assert Hangs(visited, t, p);
    if t.depth[p] == 0 then [p]
    else
      assert Hangs(visited, t, t.parent[p]);
      PathTo(visited, t, t.parent[p]) + [p]
  }

  /** Every visited pixel is joined to a corner by a chain of neighbouring visited
      pixels, each of them after the corner transparent or within the tolerance of the
      corner's colour; every seed is a corner. */
  lemma {:induction false} Connected(img: Image, tol: int, visited: set<Coord>, cleared: set<Coord>, t: Trace, q: Coord)
    requires Filled(img, tol, visited, cleared, t) && q in visited
    ensures var path := PathTo(visited, t, q);
      && path[0] in Corners(img.width, img.height) && path[|path| - 1] == q
      && (forall i :: 0 <= i < |path| - 1 ==> Adjacent(path[i], path[i + 1]))
      && (forall i :: 0 <= i < |path| ==> path[i] in visited && InBounds(path[i], img.width, img.height))
      && (forall i :: 0 < i < |path| ==> Matches(Colour(img, path[i]), Colour(img, path[0]), tol))
  {
    var path := PathTo(visited, t, q);
    var s := path[0];
    assert Hangs(visited, t, s) && Labelled(img, tol, cleared, t, {}, s);
    forall i | 0 <= i < |path|
      ensures InBounds(path[i], img.width, img.height)
      ensures 0 < i ==> Matches(Colour(img, path[i]), Colour(img, s), tol)
    {
      assert Hangs(visited, t, path[i]) && Labelled(img, tol, cleared, t, {}, path[i]);
    }
  }

  /** The walk is maximal: a neighbour inside the image of a visited pixel that is
      transparent or within the tolerance of that pixel's seed colour is visited. */
  lemma Maximal(img: Image, tol: int, visited: set<Coord>, cleared: set<Coord>, t: Trace, q: Coord, n: Coord)
    requires Filled(img, tol, visited, cleared, t) && q in visited && Adjacent(q, n)
    requires InBounds(n, img.width, img.height) && Matches(Colour(img, n), Colour(img, t.owner[q]), tol)
    ensures n in visited
  {
    assert NeighboursIn(img, tol, visited, t, q);
    var k :| 0 <= k < 4 && Neighbours(q)[k] == n;
    assert Reached(img, tol, Colour(img, t.owner[q]), q, k, visited);
  }

  /** Which visited pixels are cleared: a seed exactly when the tolerance is not
      negative, any other pixel exactly when it is not fully transparent. */
  lemma ClearedExactly(img: Image, tol: int, visited: set<Coord>, cleared: set<Coord>, t: Trace, q: Coord)
    requires Filled(img, tol, visited, cleared, t)
    ensures q in cleared <==>
              q in visited && (if q == t.owner[q] then tol >= 0 else Colour(img, q).a != 0)
  {
    if q in visited {
      assert Labelled(img, tol, cleared, t, {}, q);
    }
  }

  /** With a negative tolerance the walks go through transparent pixels only and nothing
      is cleared. */
  lemma NegativeToleranceClearsNothing(img: Image, tol: int, visited: set<Coord>, cleared: set<Coord>, t: Trace)
    requires Filled(img, tol, visited, cleared, t) && tol < 0
    ensures cleared == {}
    ensures forall q :: q in visited && q != t.owner[q] ==> Colour(img, q).a == 0
  {
    forall q | q in visited
      ensures q !in cleared && (q != t.owner[q] ==> Colour(img, q).a == 0)
    {
      assert Labelled(img, tol, cleared, t, {}, q);
    }
  }

  // ---------------------------------------------------------------------------
  // The work bound

  function Column(x: int, h: nat): set<Coord> {
    set y: int | 0 <= y < h :: (x, y)
  }

  lemma {:induction false} ColumnCount(x: int, h: nat)
    ensures |Column(x, h)| == h
  {
    if h > 0 {
      assert Column(x, h) == Column(x, h - 1) + {(x, h - 1)};
      ColumnCount(x, h - 1);
    }
  }

  lemma {:induction false} CellsCount(w: nat, h: nat)
    ensures |Cells(w, h)| == w * h
  {
    if w > 0 {
      CellsSplit(w - 1, h);
      CellsCount(w - 1, h);
      ColumnCount(w - 1, h);
      DisjointCount(Cells(w - 1, h), Column(w - 1, h));
      OneMoreColumn(w, h);
    }
  }

  lemma DisjointCount(a: set<Coord>, b: set<Coord>)
    requires a * b == {}
    ensures |a + b| == |a| + |b|
  {
    assert |a + b| + |a * b| == |a| + |b|;
  }

  lemma OneMoreColumn(w: nat, h: nat)
    requires w > 0
    ensures (w - 1) * h + h == w * h
  {
  }

  lemma CellsSplit(x: nat, h: nat)
    ensures Cells(x + 1, h) == Cells(x, h) + Column(x, h)
    ensures Cells(x, h) * Column(x, h) == {}
  {
    forall p | p in Cells(x + 1, h)
      ensures p in Cells(x, h) || p in Column(x, h)
    {
      var a, b :| 0 <= a < x + 1 && 0 <= b < h && p == (a, b);
      if a < x {
        assert p in Cells(x, h);
      } else {
        assert p in Column(x, h);
      }
    }
    forall p | p in Column(x, h)
      ensures p in Cells(x + 1, h) && p !in Cells(x, h)
    {
      var b :| 0 <= b < h && p == (x, b);
      assert p in Cells(x + 1, h);
    }
    forall p | p in Cells(x, h)
      ensures p in Cells(x + 1, h)
    {
      var a, b :| 0 <= a < x && 0 <= b < h && p == (a, b);
      assert (a, b) in Cells(x + 1, h);
    }
  }

  /** Each pixel enters a queue at most once, so the walks take at most width * height
      pixels off their queues. */
  lemma WorkBound(w: nat, h: nat, visited: set<Coord>)
    requires Inside(visited, w, h)
    ensures |visited| <= w * h
  {
    InsideCells(visited, w, h);
    SubsetCard(visited, Cells(w, h));
    CellsCount(w, h);
  }
}
