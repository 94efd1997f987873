/** Access rights: a page can be used only as every entry on its path allows. */
module PageRights {
  import opened Base
  import opened PageSpec

  /** Upper-level entries keep six flag bits, page-table entries nine. */
  function Mask(flags: bv9): bv9 { flags & 0x3f }

  /** The bits of both, and the bits that both have. */
  function Join(a: bv9, b: bv9): bv9 { a | b }
  function Meet(a: bv9, b: bv9): bv9 { a & b }

  /** `a` has all the bits of `b`. */
  predicate Covers(a: bv9, b: bv9) { a & b == b }

  /** What the upper-level entry at the end of `p` lets through: its six flag bits, none if it is absent. */
  function Gate(fr: Frames, root: nat, p: seq<nat>): bv9
    requires p != []
  {
    var t, i := Lookup(fr, root, p[..|p| - 1]), p[|p| - 1];
    if t.Some? && t.value in fr && i < ENTRIES && Present(fr[t.value][i]) then Mask(fr[t.value][i].flags) else 0
  }

  /** The upper-level entry at the end of `p` forbids to execute what it leads to. */
  predicate Bars(fr: Frames, root: nat, p: seq<nat>)
    requires p != []
  {
    var t, i := Lookup(fr, root, p[..|p| - 1]), p[|p| - 1];
    t.Some? && t.value in fr && i < ENTRIES && Present(fr[t.value][i]) && fr[t.value][i].xd
  }

  /** The path of an upper-level entry. */
  ghost predicate IsWay(p: seq<nat>) { 1 <= |p| <= 3 && IsPath(p) }

  /** The rights of the page at `q`: the bits that every entry on the path has. */
  function Rights(fr: Frames, root: nat, q: seq<nat>): bv9
    requires |q| == 4
  {
    var e := Translate(fr, root, q);
    if e.None? then 0
    else Meet(Meet(Gate(fr, root, q[..1]), Gate(fr, root, q[..2])), Meet(Gate(fr, root, q[..3]), Mask(e.value.flags)))
  }

  // ---------------------------------------------------------------- changing one entry

  lemma WayTable(fr: Frames, pool: set<nat>, root: nat, p: seq<nat>)
    requires Tree(fr, pool, root) && IsWay(p)
    ensures var r := p[..|p| - 1];
      IsPath(r) && |r| <= 2 && forall t: nat :: Lookup(fr, root, r) == Some(t) ==> TableAt(fr, root, r, t)
  {
  }

  lemma HangGates(fr: Frames, pool: set<nat>, root: nat, p: seq<nat>, f: nat, i: nat, g: nat, e: Entry, q: seq<nat>)
    requires Tree(fr, pool, root) && TableAt(fr, root, p, f) && |p| <= 2 && i < ENTRIES && f in fr && f !in pool
    requires !Present(fr[f][i]) && g in pool && g in fr && Present(e) && e.address == g && IsWay(q)
    ensures Gate(Put(fr[g := BLANK], f, i, e), root, q) == if q == p + [i] then Mask(e.flags) else Gate(fr, root, q)
    ensures Gate(fr, root, p + [i]) == 0
  {
    var r, j := q[..|q| - 1], q[|q| - 1];
    assert q == r + [j] && (p + [i])[..|p + [i]| - 1] == p;
    WayTable(fr, pool, root, q);
    HangTables(fr, pool, root, p, f, i, g, e, r);
    LookupSnoc(fr, root, p, i);
    PoolNotTable(fr, pool, root, g);
    hide Tree;
    var t := Lookup(fr, root, r);
    if r != p + [i] && t.Some? {
      assert TableAt(fr, root, r, t.value) && !TableAt(fr, root, r, g);
      if t.value == f { OnePath(fr, pool, root, p, r, f); }
    }
  }

  lemma OnePath(fr: Frames, pool: set<nat>, root: nat, p: seq<nat>, r: seq<nat>, f: nat)
    requires Tree(fr, pool, root) && TableAt(fr, root, p, f) && TableAt(fr, root, r, f)
    ensures p == r
  {
  }

  lemma FlagsGates(fr: Frames, pool: set<nat>, root: nat, p: seq<nat>, f: nat, i: nat, e: Entry, q: seq<nat>)
    requires Tree(fr, pool, root) && TableAt(fr, root, p, f) && |p| <= 2 && i < ENTRIES && f in fr && IsWay(q)
    requires Present(fr[f][i]) && Present(e) && e.address == fr[f][i].address
    ensures Gate(Put(fr, f, i, e), root, q) == if q == p + [i] then Mask(e.flags) else Gate(fr, root, q)
    ensures Gate(fr, root, p + [i]) == Mask(fr[f][i].flags)
  {
    var r, j := q[..|q| - 1], q[|q| - 1];
    assert q == r + [j] && (p + [i])[..|p + [i]| - 1] == p;
    WayTable(fr, pool, root, q);
    PutSameTarget(fr, root, f, i, e, r);
    var t := Lookup(fr, root, r);
    hide Tree;
    if t == Some(f) { OnePath(fr, pool, root, p, r, f); }
  }

  lemma LeafGates(fr: Frames, pool: set<nat>, root: nat, p: seq<nat>, f: nat, i: nat, e: Entry, q: seq<nat>)
    requires Tree(fr, pool, root) && TableAt(fr, root, p, f) && |p| == 3 && i < ENTRIES && f in fr && IsWay(q)
    ensures Gate(Put(fr, f, i, e), root, q) == Gate(fr, root, q)
  {
    var r := q[..|q| - 1];
    WayTable(fr, pool, root, q);
    PutElsewhere(fr, pool, root, p, f, i, e, r);
    var t := Lookup(fr, root, r);
    hide Tree;
    if t == Some(f) { OnePath(fr, pool, root, p, r, f); }
  }

  // ---------------------------------------------------------------- along a path, and over a range

  /** The entries of `way` from level `lo` to below level `hi` have gained the bits `m`; no other entry changed. */
  ghost predicate Opens(fr: Frames, fr': Frames, root: nat, way: seq<nat>, lo: nat, hi: nat, m: bv9) {
    forall p: seq<nat> :: IsWay(p) ==>
      Gate(fr', root, p) == if lo < |p| <= hi && p <= way then Join(Gate(fr, root, p), m) else Gate(fr, root, p)
  }

  lemma OpensNone(fr: Frames, root: nat, way: seq<nat>, lo: nat, m: bv9)
    ensures Opens(fr, fr, root, way, lo, lo, m)
  {
  }

  lemma OpensTrans(fr: Frames, fr1: Frames, fr2: Frames, root: nat, way: seq<nat>, lo: nat, mid: nat, hi: nat, m: bv9)
    requires lo <= mid <= hi && Opens(fr, fr1, root, way, lo, mid, m) && Opens(fr1, fr2, root, way, mid, hi, m)
    ensures Opens(fr, fr2, root, way, lo, hi, m)
  {
    hide Gate, Join;
  }

  /** The entry leads to one of the pages from `vpn`, `n` of them. */
  ghost predicate OnWay(p: seq<nat>, vpn: nat, n: nat) {
    exists v: nat :: vpn <= v < vpn + n && v < PAGES && p <= Path(v)
  }

  /** All entries that lead to the first `n` pages have gained the bits `m`; those that lead to the first `k` pages may
      have; no other entry changed. */
  ghost predicate Widened(fr: Frames, fr': Frames, root: nat, vpn: nat, n: nat, k: nat, m: bv9) {
    forall p: seq<nat> :: IsWay(p) ==>
      if OnWay(p, vpn, n) then Gate(fr', root, p) == Join(Gate(fr, root, p), m)
      else || Gate(fr', root, p) == Gate(fr, root, p)
           || (OnWay(p, vpn, k) && Gate(fr', root, p) == Join(Gate(fr, root, p), m))
  }

  lemma WidenedNone(fr: Frames, root: nat, vpn: nat, m: bv9)
    ensures Widened(fr, fr, root, vpn, 0, 0, m)
  {
    hide Gate, Path;
  }

  lemma OnWayNext(p: seq<nat>, vpn: nat, n: nat)
    requires vpn + n < PAGES
    ensures OnWay(p, vpn, n + 1) <==> OnWay(p, vpn, n) || p <= Path(vpn + n)
  {
    hide Path;
  }

  lemma JoinTwice(a: bv9, m: bv9)
    ensures Join(Join(a, m), m) == Join(a, m)
  {
  }

  /** One page more, opened down to level `hi`. */
  lemma WidenedNext(fr: Frames, fr1: Frames, fr2: Frames, root: nat, vpn: nat, n: nat, hi: nat, m: bv9)
    requires vpn + n < PAGES && hi <= 3 && Widened(fr, fr1, root, vpn, n, n, m)
    requires Opens(fr1, fr2, root, Path(vpn + n), 0, hi, m)
    ensures Widened(fr, fr2, root, vpn, n, n + 1, m) && (hi == 3 ==> Widened(fr, fr2, root, vpn, n + 1, n + 1, m))
  {
    hide Gate, Path, OnWay, Join;
    forall p: seq<nat> | IsWay(p)
      ensures if OnWay(p, vpn, n) then Gate(fr2, root, p) == Join(Gate(fr, root, p), m)
              else || Gate(fr2, root, p) == Gate(fr, root, p)
                   || (OnWay(p, vpn, n + 1) && Gate(fr2, root, p) == Join(Gate(fr, root, p), m))
      ensures hi == 3 ==>
        Gate(fr2, root, p) == if OnWay(p, vpn, n + 1) then Join(Gate(fr, root, p), m) else Gate(fr, root, p)
    {
      OnWayNext(p, vpn, n);
      JoinTwice(Gate(fr, root, p), m);
    }
  }

  /** The same entries let the same through. */
  ghost predicate SameGates(fr: Frames, fr': Frames, root: nat) {
    forall p: seq<nat> :: IsWay(p) ==> Gate(fr', root, p) == Gate(fr, root, p)
  }

  lemma WidenedSame(fr: Frames, fr1: Frames, fr2: Frames, root: nat, vpn: nat, n: nat, k: nat, m: bv9)
    requires Widened(fr, fr1, root, vpn, n, k, m) && SameGates(fr1, fr2, root)
    ensures Widened(fr, fr2, root, vpn, n, k, m)
  {
    hide Gate, OnWay;
  }

  // ---------------------------------------------------------------- rights

  lemma MeetCovers(a: bv9, b: bv9, m: bv9)
    requires Covers(a, m) && Covers(b, m)
    ensures Covers(Meet(a, b), m)
  {
  }

  lemma JoinCovers(a: bv9, m: bv9)
    ensures Covers(Join(a, m), m) && Covers(Join(a, m), a) && Covers(m, m)
  {
  }

  lemma MeetGrows(a: bv9, b: bv9, a': bv9, b': bv9)
    requires Covers(a', a) && Covers(b', b)
    ensures Covers(Meet(a', b'), Meet(a, b))
  {
  }

  /** Every page of a range that was mapped with `flags` has all of these rights that tables can grant. */
  lemma RangeRights(fr: Frames, fr': Frames, root: nat, vpn: nat, n: nat, v: nat, flags: bv9)
    requires Widened(fr, fr', root, vpn, n, n, Mask(F_PRESENT | flags)) && vpn <= v < vpn + n && v < PAGES
    requires var e := Translate(fr', root, Path(v)); e.Some? && e.value.flags == F_PRESENT | flags
    ensures Covers(Rights(fr', root, Path(v)), Mask(F_PRESENT | flags))
  {
    hide Gate, Path, Widened, Mask, Join, Meet, Covers, Translate;
    var m := Mask(F_PRESENT | flags);
    GateOpen(fr, fr', root, vpn, n, v, m, 1);
    GateOpen(fr, fr', root, vpn, n, v, m, 2);
    GateOpen(fr, fr', root, vpn, n, v, m, 3);
    var a, b, c := Gate(fr', root, Path(v)[..1]), Gate(fr', root, Path(v)[..2]), Gate(fr', root, Path(v)[..3]);
    JoinCovers(m, m);
    MeetCovers(a, b, m);
    MeetCovers(c, m, m);
    MeetCovers(Meet(a, b), Meet(c, m), m);
  }

  lemma GateOpen(fr: Frames, fr': Frames, root: nat, vpn: nat, n: nat, v: nat, m: bv9, j: nat)
    requires Widened(fr, fr', root, vpn, n, n, m) && vpn <= v < vpn + n && v < PAGES && 1 <= j <= 3
    ensures Covers(Gate(fr', root, Path(v)[..j]), m)
  {
    hide Gate, Path, Join, Covers;
    PathFacts(v);
    assert IsWay(Path(v)[..j]) && OnWay(Path(v)[..j], vpn, n);
    JoinCovers(Gate(fr, root, Path(v)[..j]), m);
  }

  lemma GateGrows(fr: Frames, fr': Frames, root: nat, vpn: nat, n: nat, k: nat, m: bv9, q: seq<nat>, j: nat)
    requires Widened(fr, fr', root, vpn, n, k, m) && |q| == 4 && IsPath(q) && 1 <= j <= 3
    ensures Covers(Gate(fr', root, q[..j]), Gate(fr, root, q[..j]))
  {
    hide Gate, OnWay, Join, Covers;
    assert IsWay(q[..j]);
    JoinCovers(Gate(fr, root, q[..j]), m);
    JoinCovers(m, Gate(fr, root, q[..j]));
  }

  /** No page that translates as before loses a right. */
  lemma RightsKept(fr: Frames, fr': Frames, root: nat, vpn: nat, n: nat, k: nat, m: bv9, q: seq<nat>)
    requires Widened(fr, fr', root, vpn, n, k, m) && |q| == 4 && IsPath(q)
    requires Translate(fr', root, q) == Translate(fr, root, q)
    ensures Covers(Rights(fr', root, q), Rights(fr, root, q))
  {
    hide Gate, Widened, Mask, Translate, Join, Meet, Covers;
    JoinCovers(0, 0);
    GateGrows(fr, fr', root, vpn, n, k, m, q, 1);
    GateGrows(fr, fr', root, vpn, n, k, m, q, 2);
    GateGrows(fr, fr', root, vpn, n, k, m, q, 3);
    var e := Translate(fr, root, q);
    if e.Some? {
      var f := Mask(e.value.flags);
      var a, b, c := Gate(fr, root, q[..1]), Gate(fr, root, q[..2]), Gate(fr, root, q[..3]);
      var a', b', c' := Gate(fr', root, q[..1]), Gate(fr', root, q[..2]), Gate(fr', root, q[..3]);
      JoinCovers(f, f);
      MeetGrows(a, b, a', b');
      MeetGrows(c, f, c', f);
      MeetGrows(Meet(a, b), Meet(c, f), Meet(a', b'), Meet(c', f));
    }
  }
}
