/** Walking and changing page tables.  Physical frames are reached only through window slots, each of
    which maps one frame at a time; every access below reads or writes whatever frame its slot maps at
    that moment. */
module Paging {
  import opened Base
  import opened PageSpec
  import opened PageRights

  const SLOTS := 512

  /** The pages of `root` translate as before. */
  ghost predicate SameTranslation(fr: Frames, fr': Frames, root: nat) {
    forall q: seq<nat> :: |q| == 4 && IsPath(q) ==> Translate(fr', root, q) == Translate(fr, root, q)
  }

  /** Only tables of `root` and frames of the pool were touched; new tables came from the pool. */
  ghost predicate Within(fr: Frames, pool: set<nat>, root: nat, fr': Frames, pool': set<nat>) {
    && fr'.Keys == fr.Keys && pool' <= pool
    && (forall p: seq<nat>, t: nat :: TableAt(fr', root, p, t) ==> TableAt(fr, root, p, t) || t in pool)
    && (forall g: nat :: g in fr && g !in pool && (forall p: seq<nat> :: !TableAt(fr, root, p, g)) ==> fr'[g] == fr[g])
  }

  lemma WithinTrans(fr: Frames, pool: set<nat>, root: nat, fr1: Frames, pool1: set<nat>, fr2: Frames, pool2: set<nat>)
    requires Within(fr, pool, root, fr1, pool1) && Within(fr1, pool1, root, fr2, pool2)
    ensures Within(fr, pool, root, fr2, pool2)
  {
    forall g: nat | g in fr && g !in pool && (forall p: seq<nat> :: !TableAt(fr, root, p, g)) ensures fr2[g] == fr[g] {
      assert forall p: seq<nat> :: !TableAt(fr1, root, p, g);
    }
  }

  lemma MaskPresent(was: bv9, flags: bv9)
    ensures (was | Mask(F_PRESENT | flags)) & F_PRESENT != 0
    ensures was & F_PRESENT != 0 ==> (was | Mask(flags)) & F_PRESENT != 0
    ensures (F_PRESENT | flags) & F_PRESENT != 0
  {
  }

  /** An absent entry once it refers to the fresh table `g`, and a present one once it lets `flags` through too. */
  function Linked(was: Entry, g: nat, flags: bv9): Entry {
    was.(address := g, flags := (was.flags & 0x1c0) | Mask(F_PRESENT | flags))
  }

  function Relinked(was: Entry, flags: bv9): Entry { was.(flags := was.flags | Mask(flags)) }

  class Mmu {
    /** The frame each window slot maps; 0 for a slot that maps none. */
    const window: array<nat>
    var frames: Frames
    /** Frames the physical allocator may still hand out. */
    var pool: set<nat>

    ghost predicate Valid()
      reads this
    {
      window.Length == SLOTS && pool <= frames.Keys && 0 !in pool
    }

    /** Points slot `slot` at frame `f` and returns it. */
    method MapAddr(f: nat, slot: nat) returns (v: nat)
      requires Valid() && slot < SLOTS
      modifies window
      ensures v == slot && window[..] == old(window[..])[slot := f]
    {
      v := slot;
      if window[slot] == f {
        return;
      }
      window[slot] := f;
    }

    method AllocPhysPage() returns (f: nat)
      requires Valid()
      modifies this`pool
      ensures Valid() && (f == 0 <==> old(pool) == {})
      ensures pool == old(pool) - {f} && (f != 0 ==> f in old(pool))
    {
      if pool == {} {
        return 0;
      }
      f :| f in pool;
      pool := pool - {f};
    }

    /** Clears the frame that slot `v` maps. */
    method Clear(v: nat)
      requires Valid() && v < SLOTS && window[v] in frames
      modifies this`frames
      ensures frames == old(frames)[window[v] := BLANK] && Valid()
    {
      frames := frames[window[v] := BLANK];
    }

    /** Writes entry `i` of the frame that slot `v` maps. */
    method Write(v: nat, i: nat, e: Entry)
      requires Valid() && v < SLOTS && i < ENTRIES && window[v] in frames
      modifies this`frames
      ensures frames == Put(old(frames), window[v], i, e) && Valid()
    {
      frames := frames[window[v] := frames[window[v]][i := e]];
    }

    /** Copies the frame that slot `v` maps into the frame that slot `w` maps. */
    method Copy(w: nat, v: nat)
      requires Valid() && v < SLOTS && w < SLOTS && window[v] in frames && window[w] in frames
      modifies this`frames
      ensures frames == old(frames)[window[w] := old(frames)[window[v]]] && Valid()
    {
      frames := frames[window[w] := frames[window[v]]];
    }

    /** A fresh top-level table that maps nothing. */
    method Pml4Alloc() returns (root: nat)
      requires Valid()
      modifies this, window
      ensures Valid() && pool == old(pool) - {root} && frames.Keys == old(frames).Keys
      ensures root == 0 ==> old(pool) == {} && frames == old(frames)
      ensures root != 0 ==> root in old(pool) && frames == old(frames)[root := BLANK]
      ensures root != 0 ==> Tree(frames, pool, root) && forall v: nat :: v < PAGES ==>
        Translate(frames, root, Path(v)).None?
    {
      root := AllocPhysPage();
      if root == 0 {
        return;
      }
      BlankTree(frames[root := BLANK], pool, root);
      var v := MapAddr(root, 0);
      assert window[v] == window[..][0];
      Clear(v);
    }

    /** pdpt_locate, pd_locate and pt_locate: the table that the entry of table `f` (at `level`)
        refers to, or 0. */
    method TableLocate(level: nat, f: nat, vpn: nat) returns (t: nat)
      requires Valid() && level < 3 && vpn < PAGES && f in frames
      modifies window
      ensures window[..] == old(window[..])[level := f]
      ensures var c := Child(frames, f, Index(vpn, level)); t == if c.Some? then c.value else 0
    {
      var v := MapAddr(f, level);
      assert window[v] == window[..][level];
      var e := frames[window[v]][Index(vpn, level)];
      if Present(e) {
        return e.address;
      }
      return 0;
    }

    /** pdpt_alloc, pd_alloc and pt_alloc: as above, hanging a fresh empty table into an absent entry. */
    method TableAlloc(level: nat, f: nat, vpn: nat, flags: bv9, ghost root: nat) returns (t: nat)
      requires Valid() && level < 3 && vpn < PAGES && Tree(frames, pool, root)
      requires TableAt(frames, root, Path(vpn)[..level], f)
      modifies this, window
      ensures Valid() && Tree(frames, pool, root) && Within(old(frames), old(pool), root, frames, pool)
      ensures SameTranslation(old(frames), frames, root)
      ensures t != 0 ==> TableAt(frames, root, Path(vpn)[..level + 1], t)
      ensures t != 0 ==> Opens(old(frames), frames, root, Path(vpn), level, level + 1, Mask(F_PRESENT | flags))
      ensures t == 0 ==> pool == {} && frames == old(frames)
      ensures forall s :: 0 <= s < SLOTS && s != level && s != level + 1 ==> window[s] == old(window[s])
    {
      hide Tree, Within, SameTranslation, TableAt, Opens, Mask, Linked, Relinked;
      ghost var p, i := Path(vpn)[..level], Index(vpn, level);
      TableFacts(frames, pool, root, vpn, level, f);
      var v := MapAddr(f, level);
      t := TableLocate(level, f, vpn);
      assert window[v] == window[..][level];
      if t != 0 {
        Reuse(frames, pool, root, p, f, i, flags);
        ReuseOpens(frames, pool, root, vpn, level, f, flags);
        var e := frames[window[v]][Index(vpn, level)];
        Write(v, Index(vpn, level), Relinked(e, flags));
        return;
      }
      t := AllocPhysPage();
      if t == 0 {
        assert pool == old(pool);
        Unchanged(old(frames), old(pool), root);
        return;
      }
      Hang(old(frames), old(pool), root, p, f, i, t, flags);
      HangOpens(old(frames), old(pool), root, vpn, level, f, t, flags);
      var w := MapAddr(t, level + 1);
      assert window[w] == window[..][level + 1] && window[v] == window[..][level];
      Clear(w);
      var e := frames[window[v]][Index(vpn, level)];
      Write(v, Index(vpn, level), Linked(e, t, flags));
    }

    /** The page-table entry for `vpn`, cleared, with all tables on the way; slot 3 maps its table. */
    method PageAlloc(root: nat, vpn: nat, flags: bv9) returns (ok: bool, ghost hi: nat)
      requires Valid() && vpn < PAGES && Tree(frames, pool, root)
      modifies this, window
      ensures Valid() && Tree(frames, pool, root) && Within(old(frames), old(pool), root, frames, pool)
      ensures ok ==>
        TableAt(frames, root, Path(vpn)[..3], window[3]) && SetPage(old(frames), frames, root, Path(vpn), None)
      ensures ok ==> window[3] in frames && !frames[window[3]][Index(vpn, 3)].xd
      ensures hi <= 3 && (ok ==> hi == 3)
      ensures Opens(old(frames), frames, root, Path(vpn), 0, hi, Mask(F_PRESENT | flags))
      ensures !ok ==> SameTranslation(old(frames), frames, root) && pool == {}
    {
      hide Tree, Within, TableAt, SameTranslation, SetPage, Translate, Path, Index, Opens, Mask;
      ok, hi := false, 0;
      ghost var fr0, pool0, m := frames, pool, Mask(F_PRESENT | flags);
      OpensNone(fr0, root, Path(vpn), 0, m);
      PathRoot(frames, root, vpn);
      var pdpt := TableAlloc(0, root, vpn, flags, root);
      if pdpt == 0 {
        return;
      }
      hi := 1;
      ghost var fr1, pool1 := frames, pool;
      var pd := TableAlloc(1, pdpt, vpn, flags, root);
      WithinTrans(fr0, pool0, root, fr1, pool1, frames, pool);
      TranslationTrans(fr0, fr1, frames, root);
      if pd == 0 {
        return;
      }
      hi := 2;
      OpensTrans(fr0, fr1, frames, root, Path(vpn), 0, 1, 2, m);
      ghost var fr2, pool2 := frames, pool;
      var pt := TableAlloc(2, pd, vpn, flags, root);
      WithinTrans(fr0, pool0, root, fr2, pool2, frames, pool);
      TranslationTrans(fr0, fr2, frames, root);
      if pt == 0 {
        return;
      }
      hi := 3;
      OpensTrans(fr0, fr2, frames, root, Path(vpn), 0, 2, 3, m);
      ghost var fr3 := frames;
      LeafSet(fr0, fr3, pool, root, vpn, pt, ZERO);
      LeafSame(fr0, fr3, pool, root, vpn, pt, ZERO, m);
      var v := MapAddr(pt, 3);
      assert window[v] == window[..][3];
      Write(v, Index(vpn, 3), ZERO);
      WithinTrans(fr0, pool0, root, fr3, pool, frames, pool);
      ok := true;
    }

    /** One turn of map_pages. */
    method MapPage(root: nat, vpn: nat, pfn: nat, flags: bv9) returns (ok: bool, ghost hi: nat)
      requires Valid() && vpn < PAGES && Tree(frames, pool, root)
      modifies this, window
      ensures Valid() && Tree(frames, pool, root) && Within(old(frames), old(pool), root, frames, pool)
      ensures ok ==> SetPage(old(frames), frames, root, Path(vpn), Some(Page(F_PRESENT | flags, pfn % FRAMES, false)))
      ensures hi <= 3 && (ok ==> hi == 3)
      ensures Opens(old(frames), frames, root, Path(vpn), 0, hi, Mask(F_PRESENT | flags))
      ensures !ok ==> SameTranslation(old(frames), frames, root) && pool == {}
    {
      hide Tree, Within, TableAt, SameTranslation, SetPage, Translate, Path, Index, Opens, Mask;
      ghost var fr0, pool0 := frames, pool;
      ok, hi := PageAlloc(root, vpn, flags);
      if !ok {
        return;
      }
      ghost var fr1, pool1 := frames, pool;
      var e := frames[window[3]][Index(vpn, 3)].(address := pfn % FRAMES, flags := F_PRESENT | flags);
      MaskPresent(0, flags);
      LeafReset(fr0, fr1, pool, root, vpn, window[3], e);
      LeafSame(fr0, fr1, pool, root, vpn, window[3], e, Mask(F_PRESENT | flags));
      Write(3, Index(vpn, 3), e);
      WithinTrans(fr0, pool0, root, fr1, pool1, frames, pool);
    }

    /** Maps `n` consecutive pages to `n` consecutive frames.  When a table cannot be allocated at page
        `done`, the pages from there on are unmapped, `n` of them, and the first `done` stay mapped. */
    method MapPages(root: nat, vpn: nat, pfn: nat, flags: bv9, n: nat) returns (ok: bool, done: nat)
      requires Valid() && vpn + n <= PAGES && Tree(frames, pool, root)
      modifies this, window
      ensures Valid() && Tree(frames, pool, root) && Within(old(frames), old(pool), root, frames, pool)
      ensures ok ==> done == n && Remapped(old(frames), frames, root, vpn, pfn, flags, n, 0)
      ensures ok ==> Widened(old(frames), frames, root, vpn, n, n, Mask(F_PRESENT | flags))
      ensures !ok ==> pool == {} && done < n && Remapped(old(frames), frames, root, vpn, pfn, flags, done, n)
      ensures !ok ==> Widened(old(frames), frames, root, vpn, done, done + 1, Mask(F_PRESENT | flags))
    {
      hide Tree, Within, SameTranslation, SetPage, Remapped, TableAt, Translate, Path, Widened, Mask;
      ghost var fr0, pool0 := frames, pool;
      ok, done := true, 0;
      WidenedNone(fr0, root, vpn, Mask(F_PRESENT | flags));
      RemappedNone(fr0, root, vpn, pfn, flags);
      Unchanged(fr0, pool0, root);
      while done < n
        invariant done <= n && Valid() && Tree(frames, pool, root)
        invariant Within(fr0, pool0, root, frames, pool) && Remapped(fr0, frames, root, vpn, pfn, flags, done, 0)
        invariant Widened(fr0, frames, root, vpn, done, done, Mask(F_PRESENT | flags))
      {
        ok := MapTurn(root, vpn, pfn, flags, done, fr0, pool0);
        if !ok {
          MapFail(root, vpn, pfn, flags, done, n, fr0, pool0);
          return;
        }
        done := done + 1;
      }
    }

    /** One turn of the loop, seen from the state in which the loop began. */
    method MapTurn(root: nat, vpn: nat, pfn: nat, flags: bv9, done: nat, ghost fr0: Frames,
                   ghost pool0: set<nat>) returns (ok: bool)
      requires Valid() && vpn + done < PAGES && Tree(frames, pool, root)
      requires Within(fr0, pool0, root, frames, pool) && Remapped(fr0, frames, root, vpn, pfn, flags, done, 0)
      requires Widened(fr0, frames, root, vpn, done, done, Mask(F_PRESENT | flags))
      modifies this, window
      ensures Valid() && Tree(frames, pool, root) && Within(fr0, pool0, root, frames, pool)
      ensures Remapped(fr0, frames, root, vpn, pfn, flags, if ok then done + 1 else done, 0) && (!ok ==> pool == {})
      ensures Widened(fr0, frames, root, vpn, if ok then done + 1 else done, done + 1, Mask(F_PRESENT | flags))
    {
      hide Tree, Within, SameTranslation, SetPage, Remapped, TableAt, Translate, Path, Opens, Widened, Mask;
      ghost var fr1, pool1 := frames, pool;
      ghost var hi;
      ok, hi := MapPage(root, vpn + done, pfn + done, flags);
      WidenedNext(fr0, fr1, frames, root, vpn, done, hi, Mask(F_PRESENT | flags));
      WithinTrans(fr0, pool0, root, fr1, pool1, frames, pool);
      if ok {
        RemappedNext(fr0, fr1, frames, root, vpn, pfn, flags, done);
      } else {
        RemappedSame(fr0, fr1, frames, root, vpn, pfn, flags, done);
      }
    }

    /** The clean-up of a failed mapping: it unmaps from the page it had reached, not from the first. */
    method MapFail(root: nat, vpn: nat, ghost pfn: nat, ghost flags: bv9, done: nat, n: nat, ghost fr0: Frames,
                   ghost pool0: set<nat>)
      requires Valid() && vpn + done <= PAGES && Tree(frames, pool, root)
      requires Within(fr0, pool0, root, frames, pool) && Remapped(fr0, frames, root, vpn, pfn, flags, done, 0)
      requires Widened(fr0, frames, root, vpn, done, done + 1, Mask(F_PRESENT | flags))
      modifies this, window
      ensures Valid() && Tree(frames, pool, root) && Within(fr0, pool0, root, frames, pool)
      ensures Remapped(fr0, frames, root, vpn, pfn, flags, done, n) && pool == old(pool)
      ensures Widened(fr0, frames, root, vpn, done, done + 1, Mask(F_PRESENT | flags))
    {
      hide Tree, Within, SameTranslation, SetPage, Remapped, TableAt, Translate, Path, Widened, SameGates, Mask;
      ghost var fr1, pool1 := frames, pool;
      UnmapPages(root, vpn + done, if vpn + done + n <= PAGES then n else PAGES - (vpn + done), true);
      WithinTrans(fr0, pool0, root, fr1, pool1, frames, pool);
      RemappedTrans(fr0, fr1, frames, root, vpn, pfn, flags, done, n);
      WidenedSame(fr0, fr1, frames, root, vpn, done, done + 1, Mask(F_PRESENT | flags));
    }

    /** Walks to the page-table entry for `vpn`; if it is present, slot 3 maps its table. */
    method PageLocate(root: nat, vpn: nat) returns (found: bool)
      requires Valid() && vpn < PAGES && Tree(frames, pool, root)
      modifies window
      ensures found <==> Translate(frames, root, Path(vpn)).Some?
      ensures found ==> TableAt(frames, root, Path(vpn)[..3], window[3]) && window[3] in frames
      ensures found ==> Translate(frames, root, Path(vpn)) == Shown(frames[window[3]][Index(vpn, 3)])
    {
      hide Tree, TableAt, Translate;
      PathRoot(frames, root, vpn);
      Walk(frames, pool, root, vpn, 0, root);
      var pdpt := TableLocate(0, root, vpn);
      if pdpt == 0 {
        return false;
      }
      Walk(frames, pool, root, vpn, 1, pdpt);
      var pd := TableLocate(1, pdpt, vpn);
      if pd == 0 {
        return false;
      }
      Walk(frames, pool, root, vpn, 2, pd);
      var pt := TableLocate(2, pd, vpn);
      if pt == 0 {
        return false;
      }
      Leaf(frames, pool, root, vpn, pt);
      var v := MapAddr(pt, 3);
      assert window[v] == window[..][3];
      return Present(frames[window[v]][Index(vpn, 3)]);
    }

    /** Frame 0 is never part of the pool and freeing it does nothing. */
    method FreePhysPage(f: nat)
      requires Valid() && f in frames
      modifies this`pool
      ensures Valid() && pool == if f == 0 then old(pool) else old(pool) + {f}
    {
      if f != 0 {
        pool := pool + {f};
      }
    }

    /** Removes the page's entry.  The entry is cleared before its frame number is read back, so no
        frame returns to the pool even with `deallocate`. */
    method PageFree(root: nat, vpn: nat, deallocate: bool)
      requires Valid() && vpn < PAGES && Tree(frames, pool, root)
      modifies this, window
      ensures Valid() && Tree(frames, pool, root) && Within(old(frames), old(pool), root, frames, pool)
      ensures SetPage(old(frames), frames, root, Path(vpn), None) && pool == old(pool)
      ensures SameGates(old(frames), frames, root)
    {
      hide Tree, TableAt, Within, SameTranslation, SetPage, Translate, SameGates;
      ghost var fr0, pool0 := frames, pool;
      Unchanged(fr0, pool0, root);
      SameGatesNone(fr0, root);
      var found := PageLocate(root, vpn);
      if !found {
        AlreadyClear(fr0, root, Path(vpn));
        return;
      }
      var e := frames[window[3]][Index(vpn, 3)];
      LeafClear(fr0, pool, root, vpn, window[3], e);
      LeafCleared(fr0, pool, root, vpn, window[3], e.(flags := 0, address := 0));
      Write(3, Index(vpn, 3), e.(flags := 0, address := 0));
      if deallocate {
        var f := frames[window[3]][Index(vpn, 3)].address;
        if f in frames {
          FreePhysPage(f);
        }
      }
    }

    /** Unmaps exactly `n` pages; the pool does not change. */
    method UnmapPages(root: nat, vpn: nat, n: nat, deallocate: bool)
      requires Valid() && vpn + n <= PAGES && Tree(frames, pool, root)
      modifies this, window
      ensures Valid() && Tree(frames, pool, root) && Within(old(frames), old(pool), root, frames, pool)
      ensures pool == old(pool)
      ensures Remapped(old(frames), frames, root, vpn, 0, 0, 0, n) && SameGates(old(frames), frames, root)
    {
      hide Tree, Within, SameTranslation, SetPage, Remapped, SameGates;
      ghost var fr0, pool0 := frames, pool;
      RemappedNone(fr0, root, vpn, 0, 0);
      Unchanged(fr0, pool0, root);
      SameGatesNone(fr0, root);
      var i := 0;
      while i < n
        invariant i <= n && Valid() && Tree(frames, pool, root)
        invariant Within(fr0, pool0, root, frames, pool) && pool == pool0
        invariant Remapped(fr0, frames, root, vpn, 0, 0, 0, i) && SameGates(fr0, frames, root)
      {
        ghost var fr1 := frames;
        PageFree(root, vpn + i, deallocate);
        WithinTrans(fr0, pool0, root, fr1, pool, frames, pool);
        ClearedNext(fr0, fr1, frames, root, vpn, i);
        SameGatesTrans(fr0, fr1, frames, root);
        i := i + 1;
      }
    }

    /** The physical address behind a virtual one, 0 where nothing is mapped. */
    method MemGetPhys(root: nat, vaddr: nat) returns (paddr: nat)
      requires Valid() && vaddr / PAGE < PAGES && Tree(frames, pool, root)
      modifies window
      ensures paddr == Phys(frames, root, vaddr)
    {
      var found := PageLocate(root, vaddr / PAGE);
      if !found {
        return 0;
      }
      paddr := frames[window[3]][Index(vaddr / PAGE, 3)].address * PAGE;
      paddr := paddr + vaddr % PAGE;
    }
  }

  function Phys(fr: Frames, root: nat, vaddr: nat): nat
    requires vaddr / PAGE < PAGES
  {
    var e := Translate(fr, root, Path(vaddr / PAGE));
    if e.None? then 0 else e.value.address * PAGE + vaddr % PAGE
  }

  // ---------------------------------------------------------------- ranges of pages

  /** From page `vpn`, `n` pages are mapped to the frames from `pfn` (in 40 bits), the next `c` pages are unmapped,
      and every other page is as before. */
  ghost predicate Remapped(fr: Frames, fr': Frames, root: nat, vpn: nat, pfn: nat, flags: bv9, n: nat, c: nat) {
    forall v: nat :: v < PAGES ==>
      Translate(fr', root, Path(v)) ==
        if vpn <= v < vpn + n then Some(Page(F_PRESENT | flags, (pfn + (v - vpn)) % FRAMES, false))
        else if vpn + n <= v < vpn + n + c then None
        else Translate(fr, root, Path(v))
  }

  lemma RemappedNone(fr: Frames, root: nat, vpn: nat, pfn: nat, flags: bv9)
    ensures Remapped(fr, fr, root, vpn, pfn, flags, 0, 0)
  {
  }

  lemma RemappedSame(fr: Frames, fr1: Frames, fr2: Frames, root: nat, vpn: nat, pfn: nat, flags: bv9, n: nat)
    requires Remapped(fr, fr1, root, vpn, pfn, flags, n, 0) && SameTranslation(fr1, fr2, root)
    ensures Remapped(fr, fr2, root, vpn, pfn, flags, n, 0)
  {
    hide Translate, Path;
    forall v: nat | v < PAGES ensures Translate(fr2, root, Path(v)) == Translate(fr1, root, Path(v)) {
      PathFacts(v);
    }
  }

  lemma RemappedTrans(fr: Frames, fr1: Frames, fr2: Frames, root: nat, vpn: nat, pfn: nat, flags: bv9, n: nat, c: nat)
    requires vpn + n <= PAGES && Remapped(fr, fr1, root, vpn, pfn, flags, n, 0)
    requires Remapped(fr1, fr2, root, vpn + n, 0, 0, 0, if vpn + n + c <= PAGES then c else PAGES - (vpn + n))
    ensures Remapped(fr, fr2, root, vpn, pfn, flags, n, c)
  {
    hide Translate, Path;
  }

  lemma RemappedNext(fr: Frames, fr1: Frames, fr2: Frames, root: nat, vpn: nat, pfn: nat, flags: bv9, n: nat)
    requires vpn + n < PAGES && Remapped(fr, fr1, root, vpn, pfn, flags, n, 0)
    requires SetPage(fr1, fr2, root, Path(vpn + n), Some(Page(F_PRESENT | flags, (pfn + n) % FRAMES, false)))
    ensures Remapped(fr, fr2, root, vpn, pfn, flags, n + 1, 0)
  {
    MaskPresent(0, flags);
    hide Translate, Path;
    forall v: nat | v < PAGES
      ensures Translate(fr2, root, Path(v)) ==
        if v == vpn + n then Some(Page(F_PRESENT | flags, (pfn + n) % FRAMES, false)) else Translate(fr1, root, Path(v))
    {
      PathFacts(v);
      if Path(v) == Path(vpn + n) { PathInjective(v, vpn + n); }
    }
  }

  lemma ClearedNext(fr: Frames, fr1: Frames, fr2: Frames, root: nat, vpn: nat, n: nat)
    requires vpn + n < PAGES && Remapped(fr, fr1, root, vpn, 0, 0, 0, n) && SetPage(fr1, fr2, root, Path(vpn + n), None)
    ensures Remapped(fr, fr2, root, vpn, 0, 0, 0, n + 1)
  {
    hide Translate, Path;
    forall v: nat | v < PAGES
      ensures Translate(fr2, root, Path(v)) == if v == vpn + n then None else Translate(fr1, root, Path(v))
    {
      PathFacts(v);
      if Path(v) == Path(vpn + n) { PathInjective(v, vpn + n); }
    }
  }

  /** After mapping, every byte of the range is found at the matching physical address. */
  lemma MappedPhys(fr: Frames, fr': Frames, root: nat, vpn: nat, pfn: nat, flags: bv9, n: nat, k: nat, offset: nat)
    requires vpn + n <= PAGES && pfn + n <= FRAMES && k < n && offset < PAGE
    requires Remapped(fr, fr', root, vpn, pfn, flags, n, 0)
    ensures ((vpn + k) * PAGE + offset) / PAGE < PAGES
    ensures Phys(fr', root, (vpn + k) * PAGE + offset) == (pfn + k) * PAGE + offset
  {
    hide Translate, Path;
    var a := (vpn + k) * PAGE + offset;
    assert a / PAGE == vpn + k && a % PAGE == offset;
  }

  /** Mapping pages that were not mapped, then unmapping them, leaves every page as it was. */
  lemma MapThenUnmap(fr: Frames, fr1: Frames, fr2: Frames, root: nat, vpn: nat, pfn: nat, flags: bv9, n: nat)
    requires vpn + n <= PAGES && Remapped(fr, fr1, root, vpn, pfn, flags, n, 0)
    requires Remapped(fr1, fr2, root, vpn, 0, 0, 0, n)
    requires forall v: nat :: vpn <= v < vpn + n ==> Translate(fr, root, Path(v)).None?
    ensures SameTranslation(fr, fr2, root)
  {
    forall q: seq<nat> | |q| == 4 && IsPath(q) ensures Translate(fr2, root, q) == Translate(fr, root, q) {
      var v := PageOf(q);
      assert Translate(fr2, root, Path(v)) == Translate(fr, root, Path(v));
    }
  }

  /** Changes to the tables of one root leave every other root with disjoint tables as it is. */
  lemma Isolation(fr: Frames, pool: set<nat>, root: nat, fr': Frames, pool': set<nat>, other: nat)
    requires Within(fr, pool, root, fr', pool') && Tree(fr, pool, other)
    requires forall p: seq<nat>, q: seq<nat>, t: nat :: TableAt(fr, root, p, t) ==> !TableAt(fr, other, q, t)
    ensures Tree(fr', pool', other) && SameTranslation(fr, fr', other)
    ensures forall p: seq<nat>, q: seq<nat>, t: nat :: TableAt(fr', root, p, t) ==> !TableAt(fr', other, q, t)
  {
    forall q: seq<nat>, t: nat ensures TableAt(fr', other, q, t) <==> TableAt(fr, other, q, t) {
      if |q| <= 3 && IsPath(q) { IsolatedLookup(fr, pool, root, fr', pool', other, q); }
    }
    forall q: seq<nat> | |q| == 4 && IsPath(q) ensures Translate(fr', other, q) == Translate(fr, other, q) {
      IsolatedLookup(fr, pool, root, fr', pool', other, q[..3]);
      var t := Lookup(fr, other, q[..3]);
      if t.Some? { IsolatedFrame(fr, pool, root, fr', pool', other, q[..3], t.value); }
    }
  }

  lemma IsolatedFrame(fr: Frames, pool: set<nat>, root: nat, fr': Frames, pool': set<nat>, other: nat, q: seq<nat>,
                      t: nat)
    requires Within(fr, pool, root, fr', pool') && Tree(fr, pool, other) && TableAt(fr, other, q, t)
    requires forall p: seq<nat>, q: seq<nat>, t: nat :: TableAt(fr, root, p, t) ==> !TableAt(fr, other, q, t)
    ensures t in fr && t in fr' && fr'[t] == fr[t]
  {
    assert forall p: seq<nat> :: !TableAt(fr, root, p, t);
  }

  lemma {:induction false} IsolatedLookup(fr: Frames, pool: set<nat>, root: nat, fr': Frames, pool': set<nat>,
                                          other: nat, q: seq<nat>)
    requires Within(fr, pool, root, fr', pool') && Tree(fr, pool, other) && |q| <= 3 && IsPath(q)
    requires forall p: seq<nat>, q: seq<nat>, t: nat :: TableAt(fr, root, p, t) ==> !TableAt(fr, other, q, t)
    ensures Lookup(fr', other, q) == Lookup(fr, other, q)
    decreases |q|
  {
    if q != [] {
      var r := q[..|q| - 1];
      IsolatedLookup(fr, pool, root, fr', pool', other, r);
      var t := Lookup(fr, other, r);
      if t.Some? { IsolatedFrame(fr, pool, root, fr', pool', other, r, t.value); }
    }
  }

  // ---------------------------------------------------------------- single steps

  /** An empty table is a tree of its own that maps nothing. */
  lemma BlankTree(fr: Frames, pool: set<nat>, root: nat)
    requires root in fr && fr[root] == BLANK && root !in pool && root != 0
    ensures Tree(fr, pool, root) && forall v: nat :: v < PAGES ==> Translate(fr, root, Path(v)).None?
  {
    forall q: seq<nat> | q != [] ensures Lookup(fr, root, q).None? {
      assert [] < q;
      Nothing(fr, root, [], q);
    }
    forall v: nat | v < PAGES ensures Translate(fr, root, Path(v)).None? {
      assert Path(v)[..3] != [];
    }
  }

  /** One level of a walk. */
  lemma Walk(fr: Frames, pool: set<nat>, root: nat, vpn: nat, level: nat, f: nat)
    requires vpn < PAGES && level < 3 && Tree(fr, pool, root) && TableAt(fr, root, Path(vpn)[..level], f)
    ensures f in fr
    ensures var c := Child(fr, f, Index(vpn, level));
      if c.Some? then c.value != 0 && TableAt(fr, root, Path(vpn)[..level + 1], c.value)
      else Translate(fr, root, Path(vpn)).None?
  {
    TableFacts(fr, pool, root, vpn, level, f);
    PathFacts(vpn);
    var p := Path(vpn)[..level];
    LookupSnoc(fr, root, p, Index(vpn, level));
    if Child(fr, f, Index(vpn, level)).None? && level < 2 {
      assert Path(vpn)[..level + 1] < Path(vpn)[..3];
      Nothing(fr, root, Path(vpn)[..level + 1], Path(vpn)[..3]);
    }
  }

  lemma Leaf(fr: Frames, pool: set<nat>, root: nat, vpn: nat, pt: nat)
    requires vpn < PAGES && Tree(fr, pool, root) && TableAt(fr, root, Path(vpn)[..3], pt)
    ensures pt in fr
    ensures var e := fr[pt][Index(vpn, 3)]; Translate(fr, root, Path(vpn)) == Shown(e)
  {
  }

  lemma LeafClear(fr: Frames, pool: set<nat>, root: nat, vpn: nat, pt: nat, e: Entry)
    requires vpn < PAGES && Tree(fr, pool, root) && TableAt(fr, root, Path(vpn)[..3], pt)
    ensures pt in fr
    ensures var fr' := Put(fr, pt, Index(vpn, 3), e.(flags := 0, address := 0));
      && Tree(fr', pool, root) && Within(fr, pool, root, fr', pool) && SetPage(fr, fr', root, Path(vpn), None)
  {
    PathFacts(vpn);
    LeafKeeps(fr, pool, root, Path(vpn)[..3], pt, Index(vpn, 3), e.(flags := 0, address := 0));
  }

  /** Page `q` now translates to `e`; every other page is as before. */
  ghost predicate SetPage(fr: Frames, fr': Frames, root: nat, q: seq<nat>, e: Option<Page>)
    requires |q| == 4
  {
    forall r: seq<nat> :: |r| == 4 && IsPath(r) ==>
      Translate(fr', root, r) == if r == q then e else Translate(fr, root, r)
  }

  lemma AlreadyClear(fr: Frames, root: nat, q: seq<nat>)
    requires |q| == 4 && Translate(fr, root, q).None?
    ensures SetPage(fr, fr, root, q, None)
  {
  }

  lemma PathRoot(fr: Frames, root: nat, vpn: nat)
    requires vpn < PAGES
    ensures TableAt(fr, root, Path(vpn)[..0], root)
  {
    PathFacts(vpn);
  }

  lemma TranslationTrans(a: Frames, b: Frames, c: Frames, root: nat)
    requires SameTranslation(a, b, root) && SameTranslation(b, c, root)
    ensures SameTranslation(a, c, root)
  {
  }

  lemma LeafSet(fr0: Frames, fr: Frames, pool: set<nat>, root: nat, vpn: nat, pt: nat, e: Entry)
    requires vpn < PAGES && Tree(fr, pool, root) && TableAt(fr, root, Path(vpn)[..3], pt)
    requires SameTranslation(fr0, fr, root)
    ensures pt in fr
    ensures var fr' := Put(fr, pt, Index(vpn, 3), e);
      && Tree(fr', pool, root) && Within(fr, pool, root, fr', pool) && TableAt(fr', root, Path(vpn)[..3], pt)
      && SetPage(fr0, fr', root, Path(vpn), Shown(e))
  {
    PathFacts(vpn);
    LeafKeeps(fr, pool, root, Path(vpn)[..3], pt, Index(vpn, 3), e);
  }

  lemma LeafReset(fr0: Frames, fr: Frames, pool: set<nat>, root: nat, vpn: nat, pt: nat, e: Entry)
    requires vpn < PAGES && Tree(fr, pool, root) && TableAt(fr, root, Path(vpn)[..3], pt)
    requires SetPage(fr0, fr, root, Path(vpn), None)
    ensures pt in fr
    ensures var fr' := Put(fr, pt, Index(vpn, 3), e);
      && Tree(fr', pool, root) && Within(fr, pool, root, fr', pool) && SetPage(fr0, fr', root, Path(vpn), Shown(e))
  {
    PathFacts(vpn);
    LeafKeeps(fr, pool, root, Path(vpn)[..3], pt, Index(vpn, 3), e);
  }

  lemma TableFacts(fr: Frames, pool: set<nat>, root: nat, vpn: nat, level: nat, f: nat)
    requires vpn < PAGES && level < 3 && Tree(fr, pool, root) && TableAt(fr, root, Path(vpn)[..level], f)
    ensures f in fr && f !in pool && Path(vpn)[..level + 1] == Path(vpn)[..level] + [Index(vpn, level)]
    ensures |Path(vpn)[..level]| == level
    ensures var c := Child(fr, f, Index(vpn, level)); c.Some? ==> c.value != 0
  {
    PathFacts(vpn);
    var p := Path(vpn)[..level];
    LookupSnoc(fr, root, p, Index(vpn, level));
    var c := Child(fr, f, Index(vpn, level));
    if c.Some? { assert TableAt(fr, root, p + [Index(vpn, level)], c.value); }
  }

  lemma Unchanged(fr: Frames, pool: set<nat>, root: nat)
    ensures Within(fr, pool, root, fr, pool) && SameTranslation(fr, fr, root)
  {
  }

  lemma Hang(fr: Frames, pool: set<nat>, root: nat, p: seq<nat>, f: nat, i: nat, g: nat, flags: bv9)
    requires Tree(fr, pool, root) && TableAt(fr, root, p, f) && |p| <= 2 && i < ENTRIES && f in fr && f !in pool
    requires !Present(fr[f][i])
    requires g in pool && g in fr && g != 0
    ensures var fr' := Put(fr[g := BLANK], f, i, Linked(fr[f][i], g, flags));
      && Tree(fr', pool - {g}, root) && Within(fr, pool, root, fr', pool - {g}) && SameTranslation(fr, fr', root)
      && TableAt(fr', root, p + [i], g)
  {
    hide Linked;
    LinkedFacts(fr[f][i], g, flags);
    var e := Linked(fr[f][i], g, flags);
    HangKeeps(fr, pool, root, p, f, i, g, e);
    var fr' := Put(fr[g := BLANK], f, i, e);
    hide Tree;
    forall q: seq<nat> | |q| == 4 && IsPath(q) ensures Translate(fr', root, q) == Translate(fr, root, q) {
      HangTranslates(fr, pool, root, p, f, i, g, e, q);
    }
    forall q: seq<nat>, t: nat | TableAt(fr', root, q, t) ensures TableAt(fr, root, q, t) || t in pool {
      HangTables(fr, pool, root, p, f, i, g, e, q);
    }
    HangTables(fr, pool, root, p, f, i, g, e, p + [i]);
  }

  lemma Reuse(fr: Frames, pool: set<nat>, root: nat, p: seq<nat>, f: nat, i: nat, flags: bv9)
    requires Tree(fr, pool, root) && TableAt(fr, root, p, f) && |p| <= 2 && i < ENTRIES && f in fr && Present(fr[f][i])
    ensures var fr' := Put(fr, f, i, Relinked(fr[f][i], flags));
      && Tree(fr', pool, root) && Within(fr, pool, root, fr', pool) && SameTranslation(fr, fr', root)
      && TableAt(fr', root, p + [i], fr[f][i].address)
  {
    hide Relinked;
    RelinkedFacts(fr[f][i], flags);
    var e := Relinked(fr[f][i], flags);
    FlagsKeep(fr, pool, root, p, f, i, e);
    LookupSnoc(fr, root, p, i);
  }

  // ---------------------------------------------------------------- rights

  lemma SameGatesNone(fr: Frames, root: nat)
    ensures SameGates(fr, fr, root)
  {
  }

  lemma SameGatesTrans(fr: Frames, fr1: Frames, fr2: Frames, root: nat)
    requires SameGates(fr, fr1, root) && SameGates(fr1, fr2, root)
    ensures SameGates(fr, fr2, root)
  {
    hide Gate;
  }

  lemma MaskJoins(was: bv9, flags: bv9)
    ensures Mask((was & 0x1c0) | Mask(F_PRESENT | flags)) == Join(0, Mask(F_PRESENT | flags))
    ensures was & F_PRESENT != 0 ==> Mask(was | Mask(flags)) == Join(Mask(was), Mask(F_PRESENT | flags))
  {
  }

  /** The entry that a table of the path of `vpn` holds for it. */
  lemma WayStep(vpn: nat, level: nat, q: seq<nat>)
    requires vpn < PAGES && level < 3
    ensures level < |q| <= level + 1 && q <= Path(vpn) <==> q == Path(vpn)[..level] + [Index(vpn, level)]
  {
    PathFacts(vpn);
  }

  lemma LinkedFacts(was: Entry, g: nat, flags: bv9)
    ensures var e := Linked(was, g, flags);
      Present(e) && e.address == g && Mask(e.flags) == Join(0, Mask(F_PRESENT | flags))
  {
    MaskPresent(was.flags & 0x1c0, flags);
    MaskJoins(was.flags, flags);
  }

  lemma RelinkedFacts(was: Entry, flags: bv9)
    requires Present(was)
    ensures var e := Relinked(was, flags);
      Present(e) && e.address == was.address && Mask(e.flags) == Join(Mask(was.flags), Mask(F_PRESENT | flags))
  {
    MaskPresent(was.flags, flags);
    MaskJoins(was.flags, flags);
  }

  lemma HangOpens(fr: Frames, pool: set<nat>, root: nat, vpn: nat, level: nat, f: nat, g: nat, flags: bv9)
    requires Tree(fr, pool, root) && vpn < PAGES && level < 3 && TableAt(fr, root, Path(vpn)[..level], f)
    requires f in fr && f !in pool && !Present(fr[f][Index(vpn, level)]) && g in pool && g in fr && g != 0
    ensures var i, m := Index(vpn, level), Mask(F_PRESENT | flags);
      Opens(fr, Put(fr[g := BLANK], f, i, Linked(fr[f][i], g, flags)), root, Path(vpn), level, level + 1, m)
  {
    hide Tree, TableAt, Gate, Mask, Join, Path, Index, Present, Linked;
    var p, i, m := Path(vpn)[..level], Index(vpn, level), Mask(F_PRESENT | flags);
    var e := Linked(fr[f][i], g, flags);
    LinkedFacts(fr[f][i], g, flags);
    forall q: seq<nat> | IsWay(q)
      ensures Gate(Put(fr[g := BLANK], f, i, e), root, q)
           == if level < |q| <= level + 1 && q <= Path(vpn) then Join(Gate(fr, root, q), m) else Gate(fr, root, q)
    {
      WayStep(vpn, level, q);
      HangGates(fr, pool, root, p, f, i, g, e, q);
    }
  }

  lemma ReuseOpens(fr: Frames, pool: set<nat>, root: nat, vpn: nat, level: nat, f: nat, flags: bv9)
    requires Tree(fr, pool, root) && vpn < PAGES && level < 3 && TableAt(fr, root, Path(vpn)[..level], f)
    requires f in fr && Present(fr[f][Index(vpn, level)])
    ensures var i, m := Index(vpn, level), Mask(F_PRESENT | flags);
      Opens(fr, Put(fr, f, i, Relinked(fr[f][i], flags)), root, Path(vpn), level, level + 1, m)
  {
    hide Tree, TableAt, Gate, Mask, Join, Path, Index, Present, Relinked;
    var p, i, m := Path(vpn)[..level], Index(vpn, level), Mask(F_PRESENT | flags);
    var e := Relinked(fr[f][i], flags);
    RelinkedFacts(fr[f][i], flags);
    forall q: seq<nat> | IsWay(q)
      ensures Gate(Put(fr, f, i, e), root, q)
           == if level < |q| <= level + 1 && q <= Path(vpn) then Join(Gate(fr, root, q), m) else Gate(fr, root, q)
    {
      WayStep(vpn, level, q);
      FlagsGates(fr, pool, root, p, f, i, e, q);
    }
  }

  lemma LeafCleared(fr: Frames, pool: set<nat>, root: nat, vpn: nat, pt: nat, e: Entry)
    requires vpn < PAGES && Tree(fr, pool, root) && TableAt(fr, root, Path(vpn)[..3], pt) && pt in fr
    ensures SameGates(fr, Put(fr, pt, Index(vpn, 3), e), root)
  {
    hide Tree, TableAt, Gate, Path, Index;
    forall q: seq<nat> | IsWay(q) ensures Gate(Put(fr, pt, Index(vpn, 3), e), root, q) == Gate(fr, root, q) {
      LeafGates(fr, pool, root, Path(vpn)[..3], pt, Index(vpn, 3), e, q);
    }
  }

  lemma LeafSame(fr0: Frames, fr: Frames, pool: set<nat>, root: nat, vpn: nat, pt: nat, e: Entry, m: bv9)
    requires vpn < PAGES && Tree(fr, pool, root) && TableAt(fr, root, Path(vpn)[..3], pt) && pt in fr
    requires Opens(fr0, fr, root, Path(vpn), 0, 3, m)
    ensures Opens(fr0, Put(fr, pt, Index(vpn, 3), e), root, Path(vpn), 0, 3, m)
  {
    hide Tree, TableAt, Gate, Path, Index, Join;
    LeafCleared(fr, pool, root, vpn, pt, e);
  }

  /** After a successful mapping every page of the range has, on all levels, every bit of the flags that tables keep;
      no other page loses a right. */
  lemma MappedRights(fr: Frames, fr': Frames, root: nat, vpn: nat, pfn: nat, flags: bv9, n: nat, v: nat)
    requires vpn + n <= PAGES && v < PAGES && Remapped(fr, fr', root, vpn, pfn, flags, n, 0)
    requires Widened(fr, fr', root, vpn, n, n, Mask(F_PRESENT | flags))
    ensures if vpn <= v < vpn + n then Covers(Rights(fr', root, Path(v)), Mask(F_PRESENT | flags))
            else Covers(Rights(fr', root, Path(v)), Rights(fr, root, Path(v)))
  {
    hide Translate, Path, Widened, Rights, Covers, Mask;
    PathFacts(v);
    if vpn <= v < vpn + n {
      RangeRights(fr, fr', root, vpn, n, v, flags);
    } else {
      RightsKept(fr, fr', root, vpn, n, n, Mask(F_PRESENT | flags), Path(v));
    }
  }
}
