/** Four-level page tables over physical frames: paths, translation and the tree invariant. */
module PageSpec {
  import opened Base

  const ENTRIES := 512
  /** Virtual page numbers of the 48-bit address space. */
  const PAGES := 0x10_0000_0000

  /** Frame numbers that the 40 address bits of an entry can hold. */
  const FRAMES := 0x100_0000_0000

  /** A table entry, or any other 64-bit word of a frame: the low flag bits, the number of the frame it refers
      to, the no-execute bit, and the bits that the translation ignores. */
  datatype Entry = Entry(flags: bv9, address: nat, xd: bool, ignored: bv14)

  /** What the translation makes of an entry. */
  datatype Page = Page(flags: bv9, address: nat, xd: bool)

  const ZERO := Entry(0, 0, false, 0)
  const F_PRESENT: bv9 := 1

  predicate Present(e: Entry) { e.flags & F_PRESENT != 0 }

  function Shown(e: Entry): Option<Page> { if Present(e) then Some(Page(e.flags, e.address, e.xd)) else None }

  type Frame = f: seq<Entry> | |f| == 512 witness seq(512, i => ZERO)
  type Frames = map<nat, Frame>

  const BLANK: Frame := seq(512, i => ZERO)

  /** A path holds one index per level, the top level first. */
  ghost predicate IsPath(p: seq<nat>) {
    forall i :: 0 <= i < |p| ==> p[i] < ENTRIES
  }

  /** What the entry `i` of frame `f` refers to. */
  function Child(fr: Frames, f: nat, i: nat): Option<nat> {
    if f in fr && i < ENTRIES && Present(fr[f][i]) then Some(fr[f][i].address) else None
  }

  /** The frame reached from `root` along the path `p`. */
  function Lookup(fr: Frames, root: nat, p: seq<nat>): Option<nat> {
    if p == [] then Some(root)
    else
      var up := Lookup(fr, root, p[..|p| - 1]);
      if up.None? then None else Child(fr, up.value, p[|p| - 1])
  }

  lemma LookupSnoc(fr: Frames, root: nat, p: seq<nat>, i: nat)
    ensures var up := Lookup(fr, root, p);
      Lookup(fr, root, p + [i]) == if up.None? then None else Child(fr, up.value, i)
  {
    assert (p + [i])[..|p + [i]| - 1] == p;
  }

  lemma {:induction false} LookupCons(fr: Frames, root: nat, i: nat, p: seq<nat>)
    ensures var c := Child(fr, root, i);
      Lookup(fr, root, [i] + p) == if c.None? then None else Lookup(fr, c.value, p)
    decreases |p|
  {
    if p == [] {
      assert [i] + p == [] + [i];
      LookupSnoc(fr, root, [], i);
    } else {
      var q := p[..|p| - 1];
      assert [i] + p == ([i] + q) + [p[|p| - 1]] && p == q + [p[|p| - 1]];
      LookupCons(fr, root, i, q);
      LookupSnoc(fr, root, [i] + q, p[|p| - 1]);
      if Child(fr, root, i).Some? { LookupSnoc(fr, Child(fr, root, i).value, q, p[|p| - 1]); }
    }
  }

  /** What the page-table entry that the four-index path `p` selects says, if the page is mapped. */
  function Translate(fr: Frames, root: nat, p: seq<nat>): Option<Page>
    requires |p| == 4
  {
    var t := Lookup(fr, root, p[..3]);
    if t.Some? && t.value in fr && p[3] < ENTRIES then Shown(fr[t.value][p[3]]) else None
  }

  /** `t` is one of the tables below `root`: a frame reached along at most three indices. */
  ghost predicate TableAt(fr: Frames, root: nat, p: seq<nat>, t: nat) {
    |p| <= 3 && IsPath(p) && Lookup(fr, root, p) == Some(t)
  }

  /** The tables below `root` are real frames outside the free pool, and no table is reached along
      two paths. */
  ghost predicate Tree(fr: Frames, pool: set<nat>, root: nat) {
    && (forall p: seq<nat>, t: nat :: TableAt(fr, root, p, t) ==> t in fr && t !in pool && t != 0)
    && (forall p: seq<nat>, q: seq<nat>, t: nat :: TableAt(fr, root, p, t) && TableAt(fr, root, q, t) ==> p == q)
  }

  // ---------------------------------------------------------------- changing one entry

  function Put(fr: Frames, f: nat, i: nat, e: Entry): Frames
    requires f in fr && i < ENTRIES
  {
    fr[f := fr[f][i := e]]
  }

  lemma PrefixGrows(a: seq<nat>, r: seq<nat>, j: nat)
    ensures a <= r ==> a <= r + [j]
  {
  }

  /** A path that does not run through entry `i` of the table at `p` leads where it led before. */
  lemma {:induction false} PutElsewhere(fr: Frames, pool: set<nat>, root: nat, p: seq<nat>, f: nat, i: nat, e: Entry,
                                        q: seq<nat>)
    requires Tree(fr, pool, root) && TableAt(fr, root, p, f) && i < ENTRIES
    requires IsPath(q) && |q| <= 4 && !(p + [i] <= q)
    ensures f in fr && Lookup(Put(fr, f, i, e), root, q) == Lookup(fr, root, q)
    decreases |q|
  {
    if q != [] {
      var r := q[..|q| - 1];
      var j := q[|q| - 1];
      assert q == r + [j];
      PrefixGrows(p + [i], r, j);
      PutElsewhere(fr, pool, root, p, f, i, e, r);
      var up := Lookup(fr, root, r);
      if up == Some(f) {
        assert TableAt(fr, root, r, f);
        assert r == p && j != i;
      }
    }
  }

  /** Changing an entry but neither its target nor its presence changes no path at all. */
  lemma {:induction false} PutSameTarget(fr: Frames, root: nat, f: nat, i: nat, e: Entry, q: seq<nat>)
    requires f in fr && i < ENTRIES && e.address == fr[f][i].address && Present(e) == Present(fr[f][i])
    ensures Lookup(Put(fr, f, i, e), root, q) == Lookup(fr, root, q)
    decreases |q|
  {
    if q != [] { PutSameTarget(fr, root, f, i, e, q[..|q| - 1]); }
  }

  /** A path through the changed entry continues at its new target. */
  lemma PutThrough(fr: Frames, pool: set<nat>, root: nat, p: seq<nat>, f: nat, i: nat, e: Entry)
    requires Tree(fr, pool, root) && TableAt(fr, root, p, f) && i < ENTRIES
    ensures f in fr && Lookup(Put(fr, f, i, e), root, p + [i]) == if Present(e) then Some(e.address) else None
  {
    PutElsewhere(fr, pool, root, p, f, i, e, p);
    LookupSnoc(Put(fr, f, i, e), root, p, i);
  }

  /** Nothing below `root` depends on a frame that is not one of its tables. */
  lemma {:induction false} OffTree(fr: Frames, pool: set<nat>, root: nat, g: nat, x: Frame, q: seq<nat>)
    requires Tree(fr, pool, root) && IsPath(q) && |q| <= 4
    requires forall p: seq<nat> :: !TableAt(fr, root, p, g)
    ensures Lookup(fr[g := x], root, q) == Lookup(fr, root, q)
    decreases |q|
  {
    if q != [] {
      var r := q[..|q| - 1];
      OffTree(fr, pool, root, g, x, r);
      assert !TableAt(fr, root, r, g);
    }
  }

  lemma PoolNotTable(fr: Frames, pool: set<nat>, root: nat, g: nat)
    requires Tree(fr, pool, root) && g in pool
    ensures forall p: seq<nat> :: !TableAt(fr, root, p, g)
  {
  }

  lemma OffTreeKeeps(fr: Frames, pool: set<nat>, pool': set<nat>, root: nat, g: nat, x: Frame)
    requires Tree(fr, pool, root) && pool' <= pool
    requires forall p: seq<nat> :: !TableAt(fr, root, p, g)
    ensures Tree(fr[g := x], pool', root)
    ensures forall q: seq<nat> :: IsPath(q) && |q| == 4 ==> Translate(fr[g := x], root, q) == Translate(fr, root, q)
  {
    var fr' := fr[g := x];
    forall q: seq<nat>, t: nat ensures TableAt(fr', root, q, t) <==> TableAt(fr, root, q, t) {
      if |q| <= 3 && IsPath(q) { OffTree(fr, pool, root, g, x, q); }
    }
    forall q: seq<nat> | IsPath(q) && |q| == 4 ensures Translate(fr', root, q) == Translate(fr, root, q) {
      OffTree(fr, pool, root, g, x, q[..3]);
      if Lookup(fr, root, q[..3]).Some? { assert TableAt(fr, root, q[..3], Lookup(fr, root, q[..3]).value); }
    }
  }

  // ---------------------------------------------------------------- hanging a new table into the tree

  /** Below an entry that is absent, or that leads to an empty table, there is nothing. */
  lemma {:induction false} Nothing(fr: Frames, root: nat, p: seq<nat>, q: seq<nat>)
    requires p < q
    requires Lookup(fr, root, p).Some? ==> forall j: nat :: Child(fr, Lookup(fr, root, p).value, j).None?
    ensures Lookup(fr, root, q).None?
    decreases |q|
  {
    var r := q[..|q| - 1];
    if r == p {
    } else {
      assert p < r;
      Nothing(fr, root, p, r);
    }
  }

  /** The tables of a tree in which an absent entry gets a fresh, empty table `g`. */
  lemma HangTables(fr: Frames, pool: set<nat>, root: nat, p: seq<nat>, f: nat, i: nat, g: nat, e: Entry, q: seq<nat>)
    requires Tree(fr, pool, root) && TableAt(fr, root, p, f) && |p| <= 2 && i < ENTRIES && f in fr && !Present(fr[f][i])
    requires g in pool && g in fr && Present(e) && e.address == g
    requires IsPath(q) && |q| <= 4
    ensures f in fr[g := BLANK]
    ensures Lookup(Put(fr[g := BLANK], f, i, e), root, q) == if q == p + [i] then Some(g) else Lookup(fr, root, q)
  {
    var f1 := fr[g := BLANK];
    PoolNotTable(fr, pool, root, g);
    assert !TableAt(fr, root, p, g);
    OffTreeKeeps(fr, pool, pool - {g}, root, g, BLANK);
    OffTree(fr, pool, root, g, BLANK, p);
    OffTree(fr, pool, root, g, BLANK, q);
    hide Tree;
    var f2 := Put(f1, f, i, e);
    PutThrough(f1, pool - {g}, root, p, f, i, e);
    if !(p + [i] <= q) {
      PutElsewhere(f1, pool - {g}, root, p, f, i, e, q);
    } else if q != p + [i] {
      assert p + [i] < q;
      LookupSnoc(fr, root, p, i);
      Nothing(fr, root, p + [i], q);
      Nothing(f2, root, p + [i], q);
    }
  }

  lemma HangKeeps(fr: Frames, pool: set<nat>, root: nat, p: seq<nat>, f: nat, i: nat, g: nat, e: Entry)
    requires Tree(fr, pool, root) && TableAt(fr, root, p, f) && |p| <= 2 && i < ENTRIES && f in fr && !Present(fr[f][i])
    requires g in pool && g in fr && g != 0 && Present(e) && e.address == g
    ensures f in fr[g := BLANK]
    ensures Tree(Put(fr[g := BLANK], f, i, e), pool - {g}, root)
  {
    PoolNotTable(fr, pool, root, g);
    assert !TableAt(fr, root, p, g);
    var f2 := Put(fr[g := BLANK], f, i, e);
    forall q: seq<nat>, t: nat
      ensures TableAt(f2, root, q, t) <==> TableAt(fr, root, q, t) || (q == p + [i] && t == g)
    {
      if |q| <= 3 && IsPath(q) {
        HangTables(fr, pool, root, p, f, i, g, e, q);
        LookupSnoc(fr, root, p, i);
      }
    }
  }

  lemma HangTranslates(fr: Frames, pool: set<nat>, root: nat, p: seq<nat>, f: nat, i: nat, g: nat, e: Entry,
                       q: seq<nat>)
    requires Tree(fr, pool, root) && TableAt(fr, root, p, f) && |p| <= 2 && i < ENTRIES && f in fr && !Present(fr[f][i])
    requires g in pool && g in fr && Present(e) && e.address == g
    requires IsPath(q) && |q| == 4
    ensures f in fr[g := BLANK]
    ensures Translate(Put(fr[g := BLANK], f, i, e), root, q) == Translate(fr, root, q)
  {
    PoolNotTable(fr, pool, root, g);
    var t := Lookup(fr, root, q[..3]);
    HangTables(fr, pool, root, p, f, i, g, e, q[..3]);
    LookupSnoc(fr, root, p, i);
    if q[..3] != p + [i] && t.Some? {
      assert TableAt(fr, root, q[..3], t.value) && !TableAt(fr, root, q[..3], g);
    }
  }

  // ---------------------------------------------------------------- flags and leaves

  /** Changing only flags of an upper-level entry changes neither tree nor translation. */
  lemma FlagsKeep(fr: Frames, pool: set<nat>, root: nat, p: seq<nat>, f: nat, i: nat, e: Entry)
    requires Tree(fr, pool, root) && TableAt(fr, root, p, f) && |p| <= 2 && i < ENTRIES && f in fr
    requires e.address == fr[f][i].address && Present(e) == Present(fr[f][i])
    ensures Tree(Put(fr, f, i, e), pool, root)
    ensures forall q: seq<nat> :: |q| <= 4 ==> Lookup(Put(fr, f, i, e), root, q) == Lookup(fr, root, q)
    ensures forall q: seq<nat> :: |q| == 4 && IsPath(q) ==>
      Translate(Put(fr, f, i, e), root, q) == Translate(fr, root, q)
  {
    var f' := Put(fr, f, i, e);
    forall q: seq<nat> | |q| <= 4 ensures Lookup(f', root, q) == Lookup(fr, root, q) {
      PutSameTarget(fr, root, f, i, e, q);
    }
    forall q: seq<nat>, t: nat ensures TableAt(f', root, q, t) <==> TableAt(fr, root, q, t) {}
    forall q: seq<nat> | |q| == 4 && IsPath(q) ensures Translate(f', root, q) == Translate(fr, root, q) {
      var t := Lookup(fr, root, q[..3]);
      if t.Some? { assert TableAt(fr, root, q[..3], t.value); }
    }
  }

  /** Writing a page-table entry changes the translation of exactly that page. */
  lemma LeafKeeps(fr: Frames, pool: set<nat>, root: nat, p: seq<nat>, f: nat, i: nat, e: Entry)
    requires Tree(fr, pool, root) && TableAt(fr, root, p, f) && |p| == 3 && i < ENTRIES && f in fr
    ensures Tree(Put(fr, f, i, e), pool, root)
    ensures forall q: seq<nat> :: |q| <= 3 && IsPath(q) ==> Lookup(Put(fr, f, i, e), root, q) == Lookup(fr, root, q)
    ensures forall q: seq<nat> :: |q| == 4 && IsPath(q) ==>
      Translate(Put(fr, f, i, e), root, q) == if q == p + [i] then Shown(e) else Translate(fr, root, q)
  {
    var f' := Put(fr, f, i, e);
    forall q: seq<nat> | |q| <= 3 && IsPath(q) ensures Lookup(f', root, q) == Lookup(fr, root, q) {
      PutElsewhere(fr, pool, root, p, f, i, e, q);
    }
    forall q: seq<nat>, t: nat ensures TableAt(f', root, q, t) <==> TableAt(fr, root, q, t) {}
    forall q: seq<nat> | |q| == 4 && IsPath(q)
      ensures Translate(f', root, q) == if q == p + [i] then Shown(e) else Translate(fr, root, q)
    {
      assert q == q[..3] + [q[3]];
      var t := Lookup(fr, root, q[..3]);
      if t.Some? { assert TableAt(fr, root, q[..3], t.value); }
    }
  }

  // ---------------------------------------------------------------- virtual page numbers

  /** The index that the page number uses at each level: bits 39-47, 30-38, 21-29 and 12-20 of the
      address. */
  function Index(vpn: nat, level: nat): (i: nat)
    requires vpn < PAGES && level < 4
    ensures i < ENTRIES
  {
    if level == 0 then vpn / 0x800_0000
    else if level == 1 then vpn / 0x4_0000 % 512
    else if level == 2 then vpn / 0x200 % 512
    else vpn % 512
  }

  function Path(vpn: nat): (p: seq<nat>)
    requires vpn < PAGES
    ensures |p| == 4
  {
    [Index(vpn, 0), Index(vpn, 1), Index(vpn, 2), Index(vpn, 3)]
  }

  lemma PathFacts(vpn: nat)
    requires vpn < PAGES
    ensures IsPath(Path(vpn)) && Path(vpn)[..0] == []
    ensures forall level :: 0 <= level < 4 ==> Path(vpn)[..level + 1] == Path(vpn)[..level] + [Index(vpn, level)]
    ensures Path(vpn)[..4] == Path(vpn)
  {
  }

  lemma Digits(vpn: nat)
    requires vpn < PAGES
    ensures vpn == ((Index(vpn, 0) * 512 + Index(vpn, 1)) * 512 + Index(vpn, 2)) * 512 + Index(vpn, 3)
  {
    Shifts(vpn);
  }

  lemma Shifts(n: nat)
    ensures n / 0x200 / 512 == n / 0x4_0000 && n / 0x4_0000 / 512 == n / 0x800_0000
  {
  }

  lemma Digit(x: nat, d: nat)
    requires d < 512
    ensures (x * 512 + d) / 512 == x && (x * 512 + d) % 512 == d
  {
  }

  /** Distinct pages have distinct paths. */
  lemma PathInjective(a: nat, b: nat)
    requires a < PAGES && b < PAGES && Path(a) == Path(b)
    ensures a == b
  {
    Digits(a);
    Digits(b);
    assert Path(a)[0] == Path(b)[0] && Path(a)[1] == Path(b)[1] && Path(a)[2] == Path(b)[2] && Path(a)[3] == Path(b)[3];
  }

  /** Every path of four indices belongs to a page. */
  lemma PageOf(q: seq<nat>) returns (vpn: nat)
    requires |q| == 4 && IsPath(q)
    ensures vpn < PAGES && Path(vpn) == q
  {
    assert q[0] < 512 && q[1] < 512 && q[2] < 512 && q[3] < 512;
    var x := q[0] * 512 + q[1];
    var y := x * 512 + q[2];
    vpn := y * 512 + q[3];
    Shifts(vpn);
    Digit(q[0], q[1]);
    Digit(x, q[2]);
    Digit(y, q[3]);
  }
}
