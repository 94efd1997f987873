/** Copying a whole address space: every table is duplicated, every data frame above the kernel image is
    copied, and frames of the kernel image are shared. */
module PageClone {
  import opened Base
  import opened PageSpec
  import opened PageRights
  import opened Paging

  /** Frames up to the end of the kernel image are not copied. */
  predicate Shared(kernelEnd: nat, f: nat) { f * PAGE <= kernelEnd }

  /** Tables and copied frames below the level-`level` frame `a` are real frames outside the pool.
      Level 4 is a data frame. */
  ghost predicate Sound(fr: Frames, pool: set<nat>, kernelEnd: nat, level: nat, a: nat)
    requires level <= 4
    decreases 4 - level
  {
    if level == 4 then
      Shared(kernelEnd, a) || (a in fr && a !in pool)
    else
      a in fr && a !in pool
      && forall i :: 0 <= i < ENTRIES && Present(fr[a][i]) ==> Sound(fr, pool, kernelEnd, level + 1, fr[a][i].address)
  }

  /** What a cloned entry keeps: upper levels have six flag bits. */
  predicate SameBits(level: nat, was: Entry, now: Entry) {
    now.xd == was.xd && now.flags == if level < 3 then Mask(was.flags) else was.flags
  }

  /** The frames that belong to the copy `b` of `a`. */
  ghost function Owned(fr: Frames, kernelEnd: nat, level: nat, a: nat, b: nat): set<nat>
    requires level <= 4
    decreases 4 - level, 1000
  {
    if level == 4 then (if Shared(kernelEnd, a) then {} else {b})
    else if a in fr && b in fr then OwnedTo(fr, kernelEnd, level, a, b, |fr[a]|)
    else {}
  }

  ghost function OwnedTo(fr: Frames, kernelEnd: nat, level: nat, a: nat, b: nat, i: nat): set<nat>
    requires level < 4 && a in fr && b in fr && i <= ENTRIES
    decreases 4 - level, i
  {
    if i == 0 then {b}
    else
      OwnedTo(fr, kernelEnd, level, a, b, i - 1)
      + if Present(fr[a][i - 1])
        then Owned(fr, kernelEnd, level + 1, fr[a][i - 1].address, fr[b][i - 1].address) else {}
  }

  /** `b` is a copy of `a`: the same entries are present with the same bits, and what they lead to is
      copied in turn, into frames that belong to one place of the copy only. */
  ghost predicate Clone(fr: Frames, kernelEnd: nat, level: nat, a: nat, b: nat)
    requires level <= 4
    decreases 4 - level, 1000
  {
    if level == 4 then
      b != 0 && if Shared(kernelEnd, a) then b == a else a in fr && b in fr && fr[b] == fr[a]
    else
      a in fr && b in fr && b != 0 && CloneTo(fr, kernelEnd, level, a, b, |fr[a]|)
  }

  ghost predicate CloneTo(fr: Frames, kernelEnd: nat, level: nat, a: nat, b: nat, i: nat)
    requires level < 4 && a in fr && b in fr && i <= ENTRIES
    decreases 4 - level, i
  {
    i > 0 ==>
      && CloneTo(fr, kernelEnd, level, a, b, i - 1)
      && SameBits(level, fr[a][i - 1], fr[b][i - 1])
      && (Present(fr[a][i - 1]) ==>
        && Clone(fr, kernelEnd, level + 1, fr[a][i - 1].address, fr[b][i - 1].address)
        && Owned(fr, kernelEnd, level + 1, fr[a][i - 1].address, fr[b][i - 1].address)
           !! OwnedTo(fr, kernelEnd, level, a, b, i - 1))
  }

  /** Some page below `a` is mapped to frame 0, whose copy looks like a failure. */
  ghost predicate HasZero(fr: Frames, level: nat, a: nat)
    requires level <= 4
    decreases 4 - level
  {
    if level == 4 then a == 0
    else a in fr && exists i :: 0 <= i < ENTRIES && Present(fr[a][i]) && HasZero(fr, level + 1, fr[a][i].address)
  }

  /** The frames that a copy of `a` takes: one for every table, and one for every page outside the kernel
      image. */
  ghost function Need(fr: Frames, kernelEnd: nat, level: nat, a: nat): nat
    requires level <= 4
    decreases 4 - level, 1000
  {
    if level == 4 then (if Shared(kernelEnd, a) then 0 else 1)
    else if a in fr then NeedTo(fr, kernelEnd, level, a, |fr[a]|)
    else 0
  }

  ghost function NeedTo(fr: Frames, kernelEnd: nat, level: nat, a: nat, i: nat): nat
    requires level < 4 && a in fr && i <= ENTRIES
    decreases 4 - level, i
  {
    if i == 0 then 1
    else
      NeedTo(fr, kernelEnd, level, a, i - 1)
      + if Present(fr[a][i - 1]) then Need(fr, kernelEnd, level + 1, fr[a][i - 1].address) else 0
  }

  // ---------------------------------------------------------------- a copy survives changes elsewhere

  ghost predicate SameOn(fr: Frames, fr': Frames, s: set<nat>) {
    forall g: nat :: g in s && g in fr ==> g in fr' && fr'[g] == fr[g]
  }

  /** Frames outside the pool are as before. */
  ghost predicate SameOff(fr: Frames, fr': Frames, pool: set<nat>) {
    forall g: nat :: g in fr && g !in pool ==> g in fr' && fr'[g] == fr[g]
  }

  lemma {:induction false} CloneKept(fr: Frames, fr': Frames, pool: set<nat>, kernelEnd: nat, level: nat, a: nat,
                                     b: nat)
    requires level <= 4 && Sound(fr, pool, kernelEnd, level, a) && Clone(fr, kernelEnd, level, a, b)
    requires SameOff(fr, fr', pool) && SameOn(fr, fr', Owned(fr, kernelEnd, level, a, b))
    ensures Clone(fr', kernelEnd, level, a, b)
    ensures Owned(fr', kernelEnd, level, a, b) == Owned(fr, kernelEnd, level, a, b)
    decreases 4 - level, 1000
  {
    if level < 4 {
      OwnsTop(fr, kernelEnd, level, a, b, |fr[a]|);
      CloneToKept(fr, fr', pool, kernelEnd, level, a, b, |fr[a]|);
    }
  }

  lemma {:induction false} OwnsTop(fr: Frames, kernelEnd: nat, level: nat, a: nat, b: nat, i: nat)
    requires level < 4 && a in fr && b in fr && i <= ENTRIES
    ensures b in OwnedTo(fr, kernelEnd, level, a, b, i)
    decreases i
  {
    if i > 0 { OwnsTop(fr, kernelEnd, level, a, b, i - 1); }
  }

  lemma {:induction false} CloneToKept(fr: Frames, fr': Frames, pool: set<nat>, kernelEnd: nat, level: nat,
                                       a: nat, b: nat, i: nat)
    requires level < 4 && i <= ENTRIES && Sound(fr, pool, kernelEnd, level, a)
    requires a in fr && b in fr && a in fr' && b in fr' && CloneTo(fr, kernelEnd, level, a, b, i)
    requires SameOff(fr, fr', pool) && SameOn(fr, fr', OwnedTo(fr, kernelEnd, level, a, b, i) - {b})
    requires forall j :: 0 <= j < i ==> fr'[b][j] == fr[b][j]
    ensures CloneTo(fr', kernelEnd, level, a, b, i)
    ensures OwnedTo(fr', kernelEnd, level, a, b, i) == OwnedTo(fr, kernelEnd, level, a, b, i)
    decreases 4 - level, i
  {
    hide Sound, Clone, Owned;
    if i > 0 {
      OwnsTop(fr, kernelEnd, level, a, b, i - 1);
      CloneToKept(fr, fr', pool, kernelEnd, level, a, b, i - 1);
      SoundTop(fr, pool, kernelEnd, level, a);
      if Present(fr[a][i - 1]) {
        SoundChild(fr, pool, kernelEnd, level, a, i - 1);
        CloneKept(fr, fr', pool, kernelEnd, level + 1, fr[a][i - 1].address, fr[b][i - 1].address);
      }
    }
  }

  // ---------------------------------------------------------------- the copy while it is made

  /** Frames only left the pool, and only such frames changed. */
  ghost predicate Grown(fr: Frames, pool: set<nat>, fr': Frames, pool': set<nat>) {
    fr'.Keys == fr.Keys && pool' <= pool && forall g: nat :: g in fr && g !in pool - pool' ==> fr'[g] == fr[g]
  }

  /** The first `i` entries are copied, and everything allocated so far belongs to them. */
  ghost predicate Partial(fr0: Frames, pool0: set<nat>, fr: Frames, pool: set<nat>, kernelEnd: nat, level: nat,
                          a: nat, b: nat, i: nat)
    requires level < 4 && i <= ENTRIES
  {
    && a in fr0 && a !in pool0 && a in fr && b in fr && b in pool0 && b !in pool && b != 0
    && CloneTo(fr, kernelEnd, level, a, b, i) && OwnedTo(fr, kernelEnd, level, a, b, i) == pool0 - pool
  }

  lemma SoundTop(fr: Frames, pool: set<nat>, kernelEnd: nat, level: nat, a: nat)
    requires level < 4 && Sound(fr, pool, kernelEnd, level, a)
    ensures a in fr && a !in pool
  {
  }

  lemma StartClone(fr: Frames, kernelEnd: nat, level: nat, a: nat, b: nat)
    requires level < 4 && a in fr && b in fr
    ensures CloneTo(fr, kernelEnd, level, a, b, 0) && OwnedTo(fr, kernelEnd, level, a, b, 0) == {b}
  {
  }

  lemma EndClone(fr0: Frames, pool0: set<nat>, fr: Frames, pool: set<nat>, kernelEnd: nat, level: nat, a: nat, b: nat)
    requires level < 4 && Partial(fr0, pool0, fr, pool, kernelEnd, level, a, b, ENTRIES)
    ensures Clone(fr, kernelEnd, level, a, b) && Owned(fr, kernelEnd, level, a, b) == pool0 - pool
  {
  }

  lemma PartialTables(fr0: Frames, pool0: set<nat>, fr: Frames, pool: set<nat>, kernelEnd: nat, level: nat, a: nat,
                      b: nat, i: nat)
    requires level < 4 && i <= ENTRIES && Partial(fr0, pool0, fr, pool, kernelEnd, level, a, b, i)
    requires Grown(fr0, pool0, fr, pool)
    ensures a in fr && b in fr && a != b && a in fr0 && fr[a] == fr0[a]
  {
  }

  lemma GrownTrans(fr0: Frames, pool0: set<nat>, fr1: Frames, pool1: set<nat>, fr2: Frames, pool2: set<nat>)
    requires Grown(fr0, pool0, fr1, pool1) && Grown(fr1, pool1, fr2, pool2)
    ensures Grown(fr0, pool0, fr2, pool2)
  {
  }

  lemma {:induction false} SoundKept(fr: Frames, pool: set<nat>, fr': Frames, pool': set<nat>, kernelEnd: nat,
                                     level: nat, a: nat)
    requires level <= 4 && Sound(fr, pool, kernelEnd, level, a) && SameOff(fr, fr', pool) && pool' <= pool
    ensures Sound(fr', pool', kernelEnd, level, a)
    decreases 4 - level
  {
    if level < 4 {
      forall i | 0 <= i < ENTRIES && Present(fr[a][i])
        ensures Sound(fr', pool', kernelEnd, level + 1, fr[a][i].address)
      {
        SoundKept(fr, pool, fr', pool', kernelEnd, level + 1, fr[a][i].address);
      }
    }
  }

  /** Writing entry `i` of the new table does not disturb what is copied so far. */
  lemma WriteKeeps(fr0: Frames, pool0: set<nat>, fr: Frames, pool: set<nat>, kernelEnd: nat, level: nat, a: nat,
                   b: nat, i: nat, e: Entry)
    requires level < 4 && i < ENTRIES && Partial(fr0, pool0, fr, pool, kernelEnd, level, a, b, i)
    requires Grown(fr0, pool0, fr, pool)
    requires Sound(fr0, pool0, kernelEnd, level, a)
    ensures b in fr && a in Put(fr, b, i, e) && b in Put(fr, b, i, e)
    ensures Partial(fr0, pool0, Put(fr, b, i, e), pool, kernelEnd, level, a, b, i)
    ensures Grown(fr0, pool0, Put(fr, b, i, e), pool)
  {
    hide Sound, CloneTo, OwnedTo;
    SoundKept(fr0, pool0, fr, pool0, kernelEnd, level, a);
    CloneToKept(fr, Put(fr, b, i, e), pool0, kernelEnd, level, a, b, i);
  }

  lemma CopyBits(fr0: Frames, pool0: set<nat>, fr: Frames, pool: set<nat>, kernelEnd: nat, level: nat, a: nat, b: nat,
                 i: nat)
    requires level < 4 && i < ENTRIES && Partial(fr0, pool0, fr, pool, kernelEnd, level, a, b, i)
    requires Grown(fr0, pool0, fr, pool)
    requires Sound(fr0, pool0, kernelEnd, level, a)
    ensures a in fr && b in fr
    ensures var e := fr[a][i];
      var fr' := Put(fr, b, i, fr[b][i].(xd := e.xd, flags := if level < 3 then Mask(e.flags) else e.flags));
      Partial(fr0, pool0, fr', pool, kernelEnd, level, a, b, i) && Grown(fr0, pool0, fr', pool)
      && (!Present(e) ==> Partial(fr0, pool0, fr', pool, kernelEnd, level, a, b, i + 1))
  {
    hide Sound;
    var e := fr[a][i];
    var c := fr[b][i].(xd := e.xd, flags := if level < 3 then Mask(e.flags) else e.flags);
    WriteKeeps(fr0, pool0, fr, pool, kernelEnd, level, a, b, i, c);
  }

  lemma SoundBelow(fr0: Frames, pool0: set<nat>, fr: Frames, pool: set<nat>, kernelEnd: nat, level: nat, a: nat,
                   b: nat, i: nat)
    requires level < 4 && i < ENTRIES && Partial(fr0, pool0, fr, pool, kernelEnd, level, a, b, i)
    requires Grown(fr0, pool0, fr, pool)
    requires Sound(fr0, pool0, kernelEnd, level, a) && Present(fr[a][i])
    ensures Sound(fr, pool, kernelEnd, level + 1, fr[a][i].address)
  {
    SoundKept(fr0, pool0, fr, pool, kernelEnd, level, a);
  }

  lemma {:induction false} ZeroKept(fr: Frames, pool: set<nat>, fr': Frames, kernelEnd: nat, level: nat, a: nat)
    requires level <= 4 && Sound(fr, pool, kernelEnd, level, a) && SameOff(fr, fr', pool) && HasZero(fr', level, a)
    ensures HasZero(fr, level, a)
    decreases 4 - level
  {
    if level < 4 {
      var i :| 0 <= i < ENTRIES && Present(fr'[a][i]) && HasZero(fr', level + 1, fr'[a][i].address);
      ZeroKept(fr, pool, fr', kernelEnd, level + 1, fr[a][i].address);
    }
  }

  lemma ZeroBelow(fr0: Frames, pool0: set<nat>, fr: Frames, pool: set<nat>, kernelEnd: nat, level: nat, a: nat,
                  b: nat, i: nat)
    requires level < 4 && i < ENTRIES && Partial(fr0, pool0, fr, pool, kernelEnd, level, a, b, i)
    requires Grown(fr0, pool0, fr, pool)
    requires Sound(fr0, pool0, kernelEnd, level, a) && Present(fr[a][i])
    ensures HasZero(fr, level + 1, fr[a][i].address) ==> HasZero(fr0, level, a)
  {
    if HasZero(fr, level + 1, fr[a][i].address) {
      assert HasZero(fr, level, a);
      ZeroKept(fr0, pool0, fr, kernelEnd, level, a);
    }
  }

  /** The entry's target is copied into frames of its own: linking it completes entry `i`. */
  lemma ChildDone(fr0: Frames, pool0: set<nat>, fr1: Frames, pool1: set<nat>, fr2: Frames, pool2: set<nat>,
                  kernelEnd: nat, level: nat, a: nat, b: nat, i: nat, t: nat)
    requires level < 4 && i < ENTRIES && Partial(fr0, pool0, fr1, pool1, kernelEnd, level, a, b, i)
    requires Grown(fr0, pool0, fr1, pool1) && Grown(fr1, pool1, fr2, pool2) && Sound(fr0, pool0, kernelEnd, level, a)
    requires Present(fr1[a][i]) && SameBits(level, fr1[a][i], fr1[b][i])
    requires Clone(fr2, kernelEnd, level + 1, fr1[a][i].address, t)
    requires Owned(fr2, kernelEnd, level + 1, fr1[a][i].address, t) == pool1 - pool2
    ensures b in fr2
    ensures var fr3 := Put(fr2, b, i, fr2[b][i].(address := t));
      Partial(fr0, pool0, fr3, pool2, kernelEnd, level, a, b, i + 1) && Grown(fr0, pool0, fr3, pool2)
  {
    hide Sound, Clone, Owned;
    hide CloneTo, OwnedTo;
    SoundKept(fr0, pool0, fr1, pool0, kernelEnd, level, a);
    CloneToKept(fr1, fr2, pool0, kernelEnd, level, a, b, i);
    var fr3 := Put(fr2, b, i, fr2[b][i].(address := t));
    SoundKept(fr0, pool0, fr2, pool0, kernelEnd, level, a);
    CloneToKept(fr2, fr3, pool0, kernelEnd, level, a, b, i);
    SoundChild(fr2, pool0, kernelEnd, level, a, i);
    CloneKept(fr2, fr3, pool0, kernelEnd, level + 1, fr2[a][i].address, t);
    CloneToNext(fr3, kernelEnd, level, a, b, i);
  }

  lemma SoundChild(fr: Frames, pool: set<nat>, kernelEnd: nat, level: nat, a: nat, i: nat)
    requires level < 4 && Sound(fr, pool, kernelEnd, level, a) && i < ENTRIES && a in fr && Present(fr[a][i])
    ensures Sound(fr, pool, kernelEnd, level + 1, fr[a][i].address)
  {
  }

  lemma CloneToNext(fr: Frames, kernelEnd: nat, level: nat, a: nat, b: nat, i: nat)
    requires level < 4 && a in fr && b in fr && i < ENTRIES && CloneTo(fr, kernelEnd, level, a, b, i)
    requires SameBits(level, fr[a][i], fr[b][i]) && Present(fr[a][i])
    requires Clone(fr, kernelEnd, level + 1, fr[a][i].address, fr[b][i].address)
    requires Owned(fr, kernelEnd, level + 1, fr[a][i].address, fr[b][i].address)
          !! OwnedTo(fr, kernelEnd, level, a, b, i)
    ensures CloneTo(fr, kernelEnd, level, a, b, i + 1)
    ensures OwnedTo(fr, kernelEnd, level, a, b, i + 1)
      == OwnedTo(fr, kernelEnd, level, a, b, i) + Owned(fr, kernelEnd, level + 1, fr[a][i].address, fr[b][i].address)
  {
  }

  // ---------------------------------------------------------------- the frames it takes

  lemma {:induction false} NeedKept(fr: Frames, pool: set<nat>, fr': Frames, kernelEnd: nat, level: nat, a: nat)
    requires level <= 4 && Sound(fr, pool, kernelEnd, level, a) && SameOff(fr, fr', pool)
    ensures Need(fr', kernelEnd, level, a) == Need(fr, kernelEnd, level, a)
    decreases 4 - level, 1000
  {
    if level < 4 {
      SoundTop(fr, pool, kernelEnd, level, a);
      NeedToKept(fr, pool, fr', kernelEnd, level, a, |fr[a]|);
    }
  }

  lemma {:induction false} NeedToKept(fr: Frames, pool: set<nat>, fr': Frames, kernelEnd: nat, level: nat, a: nat,
                                      i: nat)
    requires level < 4 && a in fr && a in fr' && i <= ENTRIES
    requires Sound(fr, pool, kernelEnd, level, a) && SameOff(fr, fr', pool)
    ensures NeedTo(fr', kernelEnd, level, a, i) == NeedTo(fr, kernelEnd, level, a, i)
    decreases 4 - level, i
  {
    hide Sound;
    if i > 0 {
      NeedToKept(fr, pool, fr', kernelEnd, level, a, i - 1);
      SoundTop(fr, pool, kernelEnd, level, a);
      if Present(fr[a][i - 1]) {
        SoundChild(fr, pool, kernelEnd, level, a, i - 1);
        NeedKept(fr, pool, fr', kernelEnd, level + 1, fr[a][i - 1].address);
      }
    }
  }

  lemma {:induction false} NeedGrows(fr: Frames, kernelEnd: nat, level: nat, a: nat, i: nat, n: nat)
    requires level < 4 && a in fr && i <= n <= ENTRIES
    ensures NeedTo(fr, kernelEnd, level, a, i) <= NeedTo(fr, kernelEnd, level, a, n)
    decreases n
  {
    hide Need;
    if i < n { NeedGrows(fr, kernelEnd, level, a, i, n - 1); }
  }

  /** Copying the first `i` entries took as many frames as they need. */
  ghost predicate Counted(fr0: Frames, pool0: set<nat>, pool: set<nat>, kernelEnd: nat, level: nat, a: nat, i: nat)
    requires level < 4 && i <= ENTRIES
  {
    a in fr0 && |pool0| == |pool| + NeedTo(fr0, kernelEnd, level, a, i)
  }

  lemma CountTop(fr0: Frames, pool0: set<nat>, kernelEnd: nat, level: nat, a: nat, b: nat)
    requires level < 4 && a in fr0 && b in pool0
    ensures Counted(fr0, pool0, pool0 - {b}, kernelEnd, level, a, 0)
  {
  }

  lemma CountNone(fr0: Frames, pool0: set<nat>, kernelEnd: nat, level: nat, a: nat)
    requires level < 4 && a in fr0 && pool0 == {}
    ensures |pool0| < Need(fr0, kernelEnd, level, a)
  {
    NeedGrows(fr0, kernelEnd, level, a, 0, |fr0[a]|);
  }

  lemma CountSkip(fr0: Frames, pool0: set<nat>, pool: set<nat>, kernelEnd: nat, level: nat, a: nat, i: nat)
    requires level < 4 && i < ENTRIES && Counted(fr0, pool0, pool, kernelEnd, level, a, i) && !Present(fr0[a][i])
    ensures Counted(fr0, pool0, pool, kernelEnd, level, a, i + 1)
  {
  }

  lemma NeedBelow(fr0: Frames, pool0: set<nat>, fr: Frames, pool: set<nat>, kernelEnd: nat, level: nat, a: nat,
                  i: nat)
    requires level < 4 && i < ENTRIES && Sound(fr0, pool0, kernelEnd, level, a) && Grown(fr0, pool0, fr, pool)
    requires a in fr0 && Present(fr0[a][i])
    ensures Need(fr, kernelEnd, level + 1, fr0[a][i].address) == Need(fr0, kernelEnd, level + 1, fr0[a][i].address)
  {
    hide Sound, Need;
    SoundChild(fr0, pool0, kernelEnd, level, a, i);
    NeedKept(fr0, pool0, fr, kernelEnd, level + 1, fr0[a][i].address);
  }

  /** The child was copied, into as many frames as it needs. */
  lemma CountChild(fr0: Frames, pool0: set<nat>, pool1: set<nat>, pool2: set<nat>, kernelEnd: nat, level: nat,
                   a: nat, i: nat)
    requires level < 4 && i < ENTRIES && Counted(fr0, pool0, pool1, kernelEnd, level, a, i) && Present(fr0[a][i])
    requires |pool1| == |pool2| + Need(fr0, kernelEnd, level + 1, fr0[a][i].address)
    ensures Counted(fr0, pool0, pool2, kernelEnd, level, a, i + 1)
  {
    hide Need;
  }

  /** There were too few frames for the child, so there were too few at the start. */
  lemma CountShort(fr0: Frames, pool0: set<nat>, pool1: set<nat>, kernelEnd: nat, level: nat, a: nat, i: nat)
    requires level < 4 && i < ENTRIES && Counted(fr0, pool0, pool1, kernelEnd, level, a, i) && Present(fr0[a][i])
    requires |pool1| < Need(fr0, kernelEnd, level + 1, fr0[a][i].address)
    ensures |pool0| < Need(fr0, kernelEnd, level, a)
  {
    NeedGrows(fr0, kernelEnd, level, a, i + 1, |fr0[a]|);
  }

  lemma CountAll(fr0: Frames, pool0: set<nat>, pool: set<nat>, kernelEnd: nat, level: nat, a: nat)
    requires level < 4 && Counted(fr0, pool0, pool, kernelEnd, level, a, ENTRIES)
    ensures |pool0| == |pool| + Need(fr0, kernelEnd, level, a)
  {
  }

  // ---------------------------------------------------------------- the code

  /** page_clone: the copy of a data frame, the frame itself if it is part of the kernel image, or 0. */
  method PageClone(m: Mmu, kernelEnd: nat, a: nat) returns (b: nat)
    requires m.Valid() && Sound(m.frames, m.pool, kernelEnd, 4, a)
    modifies m, m.window
    ensures m.Valid() && Grown(old(m.frames), old(m.pool), m.frames, m.pool)
    ensures b != 0 ==>
      Clone(m.frames, kernelEnd, 4, a, b) && Owned(m.frames, kernelEnd, 4, a, b) == old(m.pool) - m.pool
    ensures b != 0 ==> |old(m.pool)| == |m.pool| + Need(old(m.frames), kernelEnd, 4, a)
    ensures b == 0 ==> HasZero(old(m.frames), 4, a) || |old(m.pool)| < Need(old(m.frames), kernelEnd, 4, a)
    ensures forall s :: 0 <= s < 8 ==> m.window[s] == old(m.window[s])
  {
    if a * PAGE <= kernelEnd {
      return a;
    }
    b := m.AllocPhysPage();
    if b == 0 {
      return;
    }
    var v := m.MapAddr(a, 9);
    var w := m.MapAddr(b, 8);
    assert m.window[w] == m.window[..][8] && m.window[v] == m.window[..][9];
    assert forall s :: 0 <= s < 8 ==> m.window[..][s] == old(m.window[..])[s];
    m.Copy(w, v);
  }

  /** The head of a table's copy: an empty table in the slot of its level, and the original in the other. */
  method StartTable(m: Mmu, kernelEnd: nat, level: nat, a: nat) returns (b: nat)
    requires m.Valid() && level < 4 && a in m.frames && a !in m.pool
    modifies m, m.window
    ensures m.Valid() && Grown(old(m.frames), old(m.pool), m.frames, m.pool)
    ensures b == 0 ==> |old(m.pool)| < Need(old(m.frames), kernelEnd, level, a)
    ensures b != 0 ==> m.window[level] == b && m.window[level + 4] == a
    ensures b != 0 ==> Partial(old(m.frames), old(m.pool), m.frames, m.pool, kernelEnd, level, a, b, 0)
    ensures b != 0 ==> Counted(old(m.frames), old(m.pool), m.pool, kernelEnd, level, a, 0)
    ensures forall s :: 0 <= s < level || 4 <= s < level + 4 ==> m.window[s] == old(m.window[s])
  {
    hide CloneTo, OwnedTo, Need, Counted;
    ghost var fr0, pool0 := m.frames, m.pool;
    b := m.AllocPhysPage();
    if b == 0 {
      CountNone(fr0, pool0, kernelEnd, level, a);
      return;
    }
    CountTop(fr0, pool0, kernelEnd, level, a, b);
    var v := m.MapAddr(a, level + 4);
    var w := m.MapAddr(b, level);
    assert m.window[w] == m.window[..][level] && m.window[v] == m.window[..][level + 4];
    assert forall s :: 0 <= s < level || 4 <= s < level + 4 ==> m.window[..][s] == old(m.window[..])[s];
    m.Clear(w);
    StartClone(m.frames, kernelEnd, level, a, b);
  }

  /** pml4_clone, pdpt_clone, pd_clone and pt_clone: the copy of table `a`, or 0. */
  method TableClone(m: Mmu, kernelEnd: nat, level: nat, a: nat) returns (b: nat)
    requires m.Valid() && level < 4 && Sound(m.frames, m.pool, kernelEnd, level, a)
    modifies m, m.window
    ensures m.Valid() && Grown(old(m.frames), old(m.pool), m.frames, m.pool)
    ensures b != 0 ==> Clone(m.frames, kernelEnd, level, a, b)
    ensures b != 0 ==> Owned(m.frames, kernelEnd, level, a, b) == old(m.pool) - m.pool
    ensures b != 0 ==> |old(m.pool)| == |m.pool| + Need(old(m.frames), kernelEnd, level, a)
    ensures b == 0 ==> HasZero(old(m.frames), level, a) || |old(m.pool)| < Need(old(m.frames), kernelEnd, level, a)
    ensures forall s :: 0 <= s < level || 4 <= s < level + 4 ==> m.window[s] == old(m.window[s])
    decreases 4 - level, 1000
  {
    hide Sound, Clone, Owned, HasZero, Need, Counted, Partial, Grown;
    ghost var fr0, pool0 := m.frames, m.pool;
    SoundTop(fr0, pool0, kernelEnd, level, a);
    b := StartTable(m, kernelEnd, level, a);
    if b == 0 {
      return;
    }
    var i := 0;
    while i < ENTRIES
      invariant i <= ENTRIES && m.Valid() && Grown(fr0, pool0, m.frames, m.pool)
      invariant Partial(fr0, pool0, m.frames, m.pool, kernelEnd, level, a, b, i)
      invariant Counted(fr0, pool0, m.pool, kernelEnd, level, a, i)
      invariant m.window[level] == b && m.window[level + 4] == a
      invariant forall s :: 0 <= s < level || 4 <= s < level + 4 ==> m.window[s] == old(m.window[s])
    {
      var ok := EntryClone(m, kernelEnd, level, i, a, b, fr0, pool0);
      if !ok {
        return 0;
      }
      i := i + 1;
    }
    EndClone(fr0, pool0, m.frames, m.pool, kernelEnd, level, a, b);
    CountAll(fr0, pool0, m.pool, kernelEnd, level, a);
  }

  /** One turn of the loop over the entries.  Both tables are read and written through the slots of
      their level, which the copying below does not remap. */
  method EntryClone(m: Mmu, kernelEnd: nat, level: nat, i: nat, ghost a: nat, ghost b: nat,
                    ghost fr0: Frames, ghost pool0: set<nat>)
    returns (ok: bool)
    requires m.Valid() && level < 4 && i < ENTRIES && Sound(fr0, pool0, kernelEnd, level, a)
    requires Grown(fr0, pool0, m.frames, m.pool) && Partial(fr0, pool0, m.frames, m.pool, kernelEnd, level, a, b, i)
    requires m.window[level] == b && m.window[level + 4] == a && Counted(fr0, pool0, m.pool, kernelEnd, level, a, i)
    modifies m, m.window
    ensures m.Valid() && Grown(fr0, pool0, m.frames, m.pool)
    ensures ok ==> Partial(fr0, pool0, m.frames, m.pool, kernelEnd, level, a, b, i + 1)
    ensures ok ==> Counted(fr0, pool0, m.pool, kernelEnd, level, a, i + 1)
    ensures !ok ==> HasZero(fr0, level, a) || |pool0| < Need(fr0, kernelEnd, level, a)
    ensures forall s :: 0 <= s <= level || 4 <= s <= level + 4 ==> m.window[s] == old(m.window[s])
    decreases 4 - level, i
  {
    hide Sound, Clone, CloneTo, Owned, OwnedTo, Grown, Partial, HasZero, Need, Counted;
    PartialTables(fr0, pool0, m.frames, m.pool, kernelEnd, level, a, b, i);
    var e := m.frames[m.window[level + 4]][i];
    var c := m.frames[m.window[level]][i].(xd := e.xd, flags := if level < 3 then Mask(e.flags) else e.flags);
    CopyBits(fr0, pool0, m.frames, m.pool, kernelEnd, level, a, b, i);
    m.Write(level, i, c);
    if !Present(e) {
      CountSkip(fr0, pool0, m.pool, kernelEnd, level, a, i);
      return true;
    }
    ghost var fr1, pool1 := m.frames, m.pool;
    SoundBelow(fr0, pool0, fr1, pool1, kernelEnd, level, a, b, i);
    NeedBelow(fr0, pool0, fr1, pool1, kernelEnd, level, a, i);
    var t;
    if level == 3 {
      t := PageClone(m, kernelEnd, e.address);
    } else {
      t := TableClone(m, kernelEnd, level + 1, e.address);
    }
    GrownTrans(fr0, pool0, fr1, pool1, m.frames, m.pool);
    if t == 0 {
      ZeroBelow(fr0, pool0, fr1, pool1, kernelEnd, level, a, b, i);
      if !HasZero(fr1, level + 1, e.address) { CountShort(fr0, pool0, pool1, kernelEnd, level, a, i); }
      return false;
    }
    CountChild(fr0, pool0, pool1, m.pool, kernelEnd, level, a, i);
    ChildDone(fr0, pool0, fr1, pool1, m.frames, m.pool, kernelEnd, level, a, b, i, t);
    c := m.frames[m.window[level]][i].(address := t);
    m.Write(level, i, c);
    ok := true;
  }

  // ---------------------------------------------------------------- what a copy means, path by path

  lemma {:induction false} CloneToAt(fr: Frames, kernelEnd: nat, level: nat, a: nat, b: nat, n: nat, i: nat)
    requires level < 4 && a in fr && b in fr && i < n <= ENTRIES && CloneTo(fr, kernelEnd, level, a, b, n)
    ensures SameBits(level, fr[a][i], fr[b][i])
    ensures Present(fr[a][i]) ==>
      var own := Owned(fr, kernelEnd, level + 1, fr[a][i].address, fr[b][i].address);
      && Clone(fr, kernelEnd, level + 1, fr[a][i].address, fr[b][i].address)
      && own <= OwnedTo(fr, kernelEnd, level, a, b, n) && own !! OwnedTo(fr, kernelEnd, level, a, b, i)
    decreases n
  {
    if i < n - 1 { CloneToAt(fr, kernelEnd, level, a, b, n - 1, i); }
  }

  lemma {:induction false} OwnedGrows(fr: Frames, kernelEnd: nat, level: nat, a: nat, b: nat, i: nat, n: nat)
    requires level < 4 && a in fr && b in fr && i < n <= ENTRIES && Present(fr[a][i])
    ensures Owned(fr, kernelEnd, level + 1, fr[a][i].address, fr[b][i].address)
         <= OwnedTo(fr, kernelEnd, level, a, b, n)
    decreases n
  {
    if i < n - 1 { OwnedGrows(fr, kernelEnd, level, a, b, i, n - 1); }
  }

  lemma SameBitsPresent(level: nat, was: Entry, now: Entry)
    requires SameBits(level, was, now)
    ensures Present(now) == Present(was)
  {
  }

  /** What entry `i` of a copied table leads to. */
  lemma CloneAt(fr: Frames, kernelEnd: nat, level: nat, a: nat, b: nat, i: nat)
    requires level < 4 && i < ENTRIES && Clone(fr, kernelEnd, level, a, b)
    ensures Child(fr, a, i).Some? <==> Child(fr, b, i).Some?
    ensures Child(fr, a, i).Some? ==>
      var own := Owned(fr, kernelEnd, level + 1, Child(fr, a, i).value, Child(fr, b, i).value);
      && Clone(fr, kernelEnd, level + 1, Child(fr, a, i).value, Child(fr, b, i).value)
      && own <= Owned(fr, kernelEnd, level, a, b) && b !in own
  {
    hide CloneTo, OwnedTo;
    CloneToAt(fr, kernelEnd, level, a, b, |fr[a]|, i);
    SameBitsPresent(level, fr[a][i], fr[b][i]);
    OwnsTop(fr, kernelEnd, level, a, b, i);
  }

  /** Different entries lead to different frames. */
  lemma CloneApart(fr: Frames, kernelEnd: nat, level: nat, a: nat, b: nat, i: nat, j: nat)
    requires level < 4 && i < j < ENTRIES && Clone(fr, kernelEnd, level, a, b) && Child(fr, a, i).Some?
    requires Child(fr, a, j).Some?
    ensures Child(fr, b, i).Some? && Child(fr, b, j).Some?
    ensures Owned(fr, kernelEnd, level + 1, Child(fr, a, i).value, Child(fr, b, i).value)
         !! Owned(fr, kernelEnd, level + 1, Child(fr, a, j).value, Child(fr, b, j).value)
  {
    hide CloneTo, OwnedTo;
    CloneAt(fr, kernelEnd, level, a, b, i);
    CloneAt(fr, kernelEnd, level, a, b, j);
    CloneToAt(fr, kernelEnd, level, a, b, |fr[a]|, j);
    OwnedGrows(fr, kernelEnd, level, a, b, i, j);
  }

  /** Along every path, both lead somewhere or neither does, and the one is a copy of the other. */
  lemma {:induction false} CloneLookup(fr: Frames, kernelEnd: nat, level: nat, a: nat, b: nat, p: seq<nat>)
    requires level + |p| <= 4 && IsPath(p) && Clone(fr, kernelEnd, level, a, b)
    ensures Lookup(fr, a, p).Some? <==> Lookup(fr, b, p).Some?
    ensures Lookup(fr, a, p).Some? ==>
      && Clone(fr, kernelEnd, level + |p|, Lookup(fr, a, p).value, Lookup(fr, b, p).value)
      && Owned(fr, kernelEnd, level + |p|, Lookup(fr, a, p).value, Lookup(fr, b, p).value)
         <= Owned(fr, kernelEnd, level, a, b)
    decreases |p|
  {
    if p != [] {
      assert p == [p[0]] + p[1..];
      LookupCons(fr, a, p[0], p[1..]);
      LookupCons(fr, b, p[0], p[1..]);
      CloneAt(fr, kernelEnd, level, a, b, p[0]);
      if Child(fr, a, p[0]).Some? {
        hide Clone, Owned, Lookup, Child;
        CloneLookup(fr, kernelEnd, level + 1, Child(fr, a, p[0]).value, Child(fr, b, p[0]).value, p[1..]);
      }
    }
  }

  /** Tables and copied frames of the copy lie in the frames it owns. */
  ghost predicate Node(fr: Frames, kernelEnd: nat, level: nat, a: nat, b: nat, p: seq<nat>, t: nat) {
    && level + |p| <= 4 && IsPath(p) && Lookup(fr, b, p) == Some(t)
    && (level + |p| == 4 ==> Lookup(fr, a, p).Some? && !Shared(kernelEnd, Lookup(fr, a, p).value))
  }

  lemma NodeOwned(fr: Frames, kernelEnd: nat, level: nat, a: nat, b: nat, p: seq<nat>, t: nat)
    requires Node(fr, kernelEnd, level, a, b, p, t) && Clone(fr, kernelEnd, level, a, b)
    ensures t in Owned(fr, kernelEnd, level, a, b) && t in fr
  {
    CloneLookup(fr, kernelEnd, level, a, b, p);
    var f := Lookup(fr, a, p).value;
    if level + |p| < 4 { OwnsTop(fr, kernelEnd, level + |p|, f, t, |fr[f]|); }
  }

  lemma NodeBelow(fr: Frames, kernelEnd: nat, level: nat, a: nat, b: nat, p: seq<nat>, t: nat)
    requires p != [] && Node(fr, kernelEnd, level, a, b, p, t) && Clone(fr, kernelEnd, level, a, b)
    ensures var c, d := Child(fr, a, p[0]), Child(fr, b, p[0]);
      && c.Some? && d.Some? && Clone(fr, kernelEnd, level + 1, c.value, d.value)
      && Node(fr, kernelEnd, level + 1, c.value, d.value, p[1..], t)
      && t in Owned(fr, kernelEnd, level + 1, c.value, d.value) && t != b
  {
    assert p == [p[0]] + p[1..];
    LookupCons(fr, a, p[0], p[1..]);
    LookupCons(fr, b, p[0], p[1..]);
    CloneAt(fr, kernelEnd, level, a, b, p[0]);
    hide Clone, Owned;
    NodeOwned(fr, kernelEnd, level + 1, Child(fr, a, p[0]).value, Child(fr, b, p[0]).value, p[1..], t);
  }

  /** No frame of the copy is reached along two paths. */
  lemma {:induction false} NodeUnique(fr: Frames, kernelEnd: nat, level: nat, a: nat, b: nat, p: seq<nat>,
                                      q: seq<nat>, t: nat)
    requires Node(fr, kernelEnd, level, a, b, p, t) && Node(fr, kernelEnd, level, a, b, q, t)
    requires Clone(fr, kernelEnd, level, a, b)
    ensures p == q
    decreases |p|
  {
    hide Clone, Owned;
    if p != [] { NodeBelow(fr, kernelEnd, level, a, b, p, t); }
    if q != [] { NodeBelow(fr, kernelEnd, level, a, b, q, t); }
    if p != [] && q != [] {
      if p[0] < q[0] {
        CloneApart(fr, kernelEnd, level, a, b, p[0], q[0]);
      } else if q[0] < p[0] {
        CloneApart(fr, kernelEnd, level, a, b, q[0], p[0]);
      } else {
        NodeUnique(fr, kernelEnd, level + 1, Child(fr, a, p[0]).value, Child(fr, b, p[0]).value, p[1..], q[1..], t);
        assert p == [p[0]] + p[1..] && q == [q[0]] + q[1..];
      }
    }
  }

  // ---------------------------------------------------------------- the copied address space

  /** The copy `e'` of a page `e`: the same bits; a kernel frame is shared, any other frame is a fresh
      one with the same contents. */
  ghost predicate Mirrors(fr: Frames, kernelEnd: nat, own: set<nat>, e: Option<Page>, e': Option<Page>) {
    && (e.Some? <==> e'.Some?)
    && (e.Some? ==>
      && e.value.address != 0
      && e'.value.flags == e.value.flags && e'.value.xd == e.value.xd
      && if e.value.address * PAGE <= kernelEnd then e'.value.address == e.value.address
         else e'.value.address in own && e.value.address in fr && e'.value.address in fr
              && fr[e'.value.address] == fr[e.value.address])
  }

  lemma {:induction false} SoundLookup(fr: Frames, pool: set<nat>, fr': Frames, kernelEnd: nat, level: nat, a: nat,
                                       p: seq<nat>)
    requires level + |p| <= 4 && IsPath(p) && Sound(fr, pool, kernelEnd, level, a) && SameOff(fr, fr', pool)
    ensures Lookup(fr', a, p) == Lookup(fr, a, p)
    ensures Lookup(fr, a, p).Some? ==> Sound(fr, pool, kernelEnd, level + |p|, Lookup(fr, a, p).value)
    decreases |p|
  {
    if p != [] {
      assert p == [p[0]] + p[1..];
      LookupCons(fr, a, p[0], p[1..]);
      LookupCons(fr', a, p[0], p[1..]);
      if Child(fr, a, p[0]).Some? { SoundLookup(fr, pool, fr', kernelEnd, level + 1, fr[a][p[0]].address, p[1..]); }
    }
  }

  /** The original's tables and pages are untouched. */
  lemma OriginalKept(fr: Frames, pool: set<nat>, fr': Frames, kernelEnd: nat, a: nat)
    requires Sound(fr, pool, kernelEnd, 0, a) && SameOff(fr, fr', pool)
    ensures SameTranslation(fr, fr', a)
    ensures forall p: seq<nat>, t: nat :: TableAt(fr', a, p, t) ==> TableAt(fr, a, p, t) && t !in pool
  {
    forall p: seq<nat>, t: nat | TableAt(fr', a, p, t) ensures TableAt(fr, a, p, t) && t !in pool {
      SoundLookup(fr, pool, fr', kernelEnd, 0, a, p);
    }
    forall q: seq<nat> | |q| == 4 && IsPath(q) ensures Translate(fr', a, q) == Translate(fr, a, q) {
      SoundLookup(fr, pool, fr', kernelEnd, 0, a, q[..3]);
    }
  }

  lemma CloneMirrors(fr: Frames, kernelEnd: nat, a: nat, b: nat, q: seq<nat>)
    requires Clone(fr, kernelEnd, 0, a, b) && |q| == 4 && IsPath(q)
    ensures Mirrors(fr, kernelEnd, Owned(fr, kernelEnd, 0, a, b), Translate(fr, a, q), Translate(fr, b, q))
    ensures Translate(fr, b, q).Some? && !Shared(kernelEnd, Translate(fr, a, q).value.address) ==>
      Node(fr, kernelEnd, 0, a, b, q, Translate(fr, b, q).value.address)
  {
    hide Owned, Clone, Lookup;
    var p := q[..3];
    assert q == p + [q[3]];
    CloneLookup(fr, kernelEnd, 0, a, b, p);
    CloneLookup(fr, kernelEnd, 0, a, b, q);
    LookupSnoc(fr, a, p, q[3]);
    LookupSnoc(fr, b, p, q[3]);
    var u, v := Lookup(fr, a, p), Lookup(fr, b, p);
    if u.Some? {
      LeafMirrors(fr, kernelEnd, u.value, v.value, q[3]);
      OwnedPage(fr, kernelEnd, fr[u.value][q[3]].address, fr[v.value][q[3]].address);
    }
  }

  /** One page-table entry and its copy. */
  lemma LeafMirrors(fr: Frames, kernelEnd: nat, u: nat, v: nat, i: nat)
    requires Clone(fr, kernelEnd, 3, u, v) && i < ENTRIES
    ensures u in fr && v in fr
    ensures var e, e' := fr[u][i], fr[v][i];
      && Present(e) == Present(e') && e'.flags == e.flags && e'.xd == e.xd
      && (Present(e) ==> e'.address != 0 && if Shared(kernelEnd, e.address) then e'.address == e.address
                         else e.address in fr && e'.address in fr && fr[e'.address] == fr[e.address])
  {
    hide CloneTo, Owned, OwnedTo;
    CloneToAt(fr, kernelEnd, 3, u, v, |fr[u]|, i);
    SameBitsPresent(3, fr[u][i], fr[v][i]);
  }

  lemma OwnedPage(fr: Frames, kernelEnd: nat, a: nat, b: nat)
    ensures Owned(fr, kernelEnd, 4, a, b) == if Shared(kernelEnd, a) then {} else {b}
  {
  }

  /** Every upper-level entry of the copy lets through, and forbids, what the entry of the original does. */
  ghost predicate SameWays(fr0: Frames, a: nat, fr: Frames, b: nat) {
    forall p: seq<nat> :: IsWay(p) ==> Gate(fr, b, p) == Gate(fr0, a, p) && Bars(fr, b, p) == Bars(fr0, a, p)
  }

  lemma MaskTwice(flags: bv9)
    ensures Mask(Mask(flags)) == Mask(flags)
  {
  }

  lemma CloneWay(fr0: Frames, pool0: set<nat>, fr: Frames, kernelEnd: nat, a: nat, b: nat, p: seq<nat>)
    requires Sound(fr0, pool0, kernelEnd, 0, a) && SameOff(fr0, fr, pool0) && Clone(fr, kernelEnd, 0, a, b) && IsWay(p)
    ensures Gate(fr, b, p) == Gate(fr0, a, p) && Bars(fr, b, p) == Bars(fr0, a, p)
  {
    hide Clone, Owned, Sound, Lookup, Mask;
    var r, i := p[..|p| - 1], p[|p| - 1];
    assert IsPath(r) && i < ENTRIES;
    SoundLookup(fr0, pool0, fr, kernelEnd, 0, a, r);
    CloneLookup(fr, kernelEnd, 0, a, b, r);
    var u, v := Lookup(fr, a, r), Lookup(fr, b, r);
    if u.Some? {
      SoundTop(fr0, pool0, kernelEnd, |r|, u.value);
      EntryMirrors(fr, kernelEnd, |r|, u.value, v.value, i);
      MaskTwice(fr[u.value][i].flags);
    }
  }

  /** One upper-level entry and its copy. */
  lemma EntryMirrors(fr: Frames, kernelEnd: nat, level: nat, u: nat, v: nat, i: nat)
    requires level < 3 && Clone(fr, kernelEnd, level, u, v) && i < ENTRIES
    ensures u in fr && v in fr
    ensures var e, e' := fr[u][i], fr[v][i];
      Present(e) == Present(e') && e'.flags == Mask(e.flags) && e'.xd == e.xd
  {
    hide CloneTo, Owned, OwnedTo;
    CloneToAt(fr, kernelEnd, level, u, v, |fr[u]|, i);
    SameBitsPresent(level, fr[u][i], fr[v][i]);
  }

  /** Every page of the copy has the rights of the original. */
  lemma CloneRights(fr0: Frames, fr: Frames, kernelEnd: nat, own: set<nat>, a: nat, b: nat, q: seq<nat>)
    requires SameWays(fr0, a, fr, b) && |q| == 4 && IsPath(q)
    requires Mirrors(fr, kernelEnd, own, Translate(fr0, a, q), Translate(fr, b, q))
    ensures Rights(fr, b, q) == Rights(fr0, a, q)
  {
    hide Gate, Bars, Translate, Mask, Meet;
    assert IsWay(q[..1]) && IsWay(q[..2]) && IsWay(q[..3]);
  }

  lemma OriginalWay(fr0: Frames, pool0: set<nat>, fr: Frames, kernelEnd: nat, a: nat, p: seq<nat>)
    requires Sound(fr0, pool0, kernelEnd, 0, a) && SameOff(fr0, fr, pool0) && IsWay(p)
    ensures Gate(fr, a, p) == Gate(fr0, a, p) && Bars(fr, a, p) == Bars(fr0, a, p)
  {
    hide Sound, Lookup, Mask;
    var r := p[..|p| - 1];
    assert IsPath(r);
    SoundLookup(fr0, pool0, fr, kernelEnd, 0, a, r);
    var u := Lookup(fr0, a, r);
    if u.Some? { SoundTop(fr0, pool0, kernelEnd, |r|, u.value); }
  }

  lemma CloneWays(fr0: Frames, pool0: set<nat>, fr: Frames, kernelEnd: nat, a: nat, b: nat)
    requires Sound(fr0, pool0, kernelEnd, 0, a) && SameOff(fr0, fr, pool0) && Clone(fr, kernelEnd, 0, a, b)
    ensures SameWays(fr0, a, fr, a) && SameWays(fr0, a, fr, b)
  {
    hide Sound, Clone, Gate, Bars, SameOff;
    forall p: seq<nat> | IsWay(p)
      ensures Gate(fr, a, p) == Gate(fr0, a, p) && Bars(fr, a, p) == Bars(fr0, a, p)
      ensures Gate(fr, b, p) == Gate(fr0, a, p) && Bars(fr, b, p) == Bars(fr0, a, p)
    {
      OriginalWay(fr0, pool0, fr, kernelEnd, a, p);
      CloneWay(fr0, pool0, fr, kernelEnd, a, b, p);
    }
  }

  /** A copied address space.  The original still translates as before; the copy maps exactly the same
      pages, with the same rights; its tables and private frames all came from the pool, each at one place only;
      nothing allocated is lost; and the copy is a proper tree of its own, apart from the original. */
  lemma CloneTheorem(fr0: Frames, pool0: set<nat>, fr: Frames, pool: set<nat>, kernelEnd: nat, a: nat, b: nat)
    requires Sound(fr0, pool0, kernelEnd, 0, a) && Grown(fr0, pool0, fr, pool) && 0 !in pool0
    requires Clone(fr, kernelEnd, 0, a, b) && Owned(fr, kernelEnd, 0, a, b) == pool0 - pool
    ensures SameTranslation(fr0, fr, a) && Tree(fr, pool, b) && SameWays(fr0, a, fr, a) && SameWays(fr0, a, fr, b)
    ensures forall q: seq<nat> :: |q| == 4 && IsPath(q) ==> Rights(fr, b, q) == Rights(fr0, a, q)
    ensures forall p: seq<nat>, q: seq<nat>, t: nat :: TableAt(fr, a, p, t) ==> !TableAt(fr, b, q, t)
    ensures forall q: seq<nat> :: |q| == 4 && IsPath(q) ==>
      Mirrors(fr, kernelEnd, pool0 - pool, Translate(fr0, a, q), Translate(fr, b, q))
    ensures forall q: seq<nat>, r: seq<nat> :: OneFrame(fr, kernelEnd, a, b, q, r) ==> q == r
    ensures forall p: seq<nat>, q: seq<nat>, t: nat :: TableAt(fr, b, p, t) ==> !Holds(fr, kernelEnd, a, b, q, t)
  {
    hide Clone, Owned, Sound, Translate, Lookup, SameWays, Rights;
    OriginalKept(fr0, pool0, fr, kernelEnd, a);
    CloneWays(fr0, pool0, fr, kernelEnd, a, b);
    forall p: seq<nat>, t: nat | TableAt(fr, b, p, t)
      ensures t in fr && t in pool0 - pool && Node(fr, kernelEnd, 0, a, b, p, t)
    {
      NodeOwned(fr, kernelEnd, 0, a, b, p, t);
    }
    forall p: seq<nat>, q: seq<nat>, t: nat | TableAt(fr, b, p, t) && TableAt(fr, b, q, t) ensures p == q {
      NodeUnique(fr, kernelEnd, 0, a, b, p, q, t);
    }
    forall q: seq<nat> | |q| == 4 && IsPath(q)
      ensures Mirrors(fr, kernelEnd, pool0 - pool, Translate(fr0, a, q), Translate(fr, b, q))
      ensures Rights(fr, b, q) == Rights(fr0, a, q)
    {
      CloneMirrors(fr, kernelEnd, a, b, q);
      CloneRights(fr0, fr, kernelEnd, pool0 - pool, a, b, q);
    }
    forall q: seq<nat>, r: seq<nat> | OneFrame(fr, kernelEnd, a, b, q, r) ensures q == r {
      CloneMirrors(fr, kernelEnd, a, b, q);
      CloneMirrors(fr, kernelEnd, a, b, r);
      NodeUnique(fr, kernelEnd, 0, a, b, q, r, Translate(fr, b, q).value.address);
    }
    forall p: seq<nat>, q: seq<nat>, t: nat | TableAt(fr, b, p, t) && Private(fr, kernelEnd, a, b, q)
      ensures !Holds(fr, kernelEnd, a, b, q, t)
    {
      CloneMirrors(fr, kernelEnd, a, b, q);
      if Holds(fr, kernelEnd, a, b, q, t) { NodeUnique(fr, kernelEnd, 0, a, b, p, q, t); }
    }
  }

  /** Page `q` is mapped, and not to a frame of the kernel image. */
  ghost predicate Private(fr: Frames, kernelEnd: nat, a: nat, b: nat, q: seq<nat>) {
    && |q| == 4 && IsPath(q)
    && Translate(fr, a, q).Some? && Translate(fr, b, q).Some?
    && Translate(fr, a, q).value.address * PAGE > kernelEnd
  }

  /** Private page `q` of the copy lies in frame `t`. */
  ghost predicate Holds(fr: Frames, kernelEnd: nat, a: nat, b: nat, q: seq<nat>, t: nat) {
    Private(fr, kernelEnd, a, b, q) && Translate(fr, b, q).value.address == t
  }

  /** Two private pages of the copy lie in one frame. */
  ghost predicate OneFrame(fr: Frames, kernelEnd: nat, a: nat, b: nat, q: seq<nat>, r: seq<nat>) {
    && Private(fr, kernelEnd, a, b, q) && Private(fr, kernelEnd, a, b, r)
    && Translate(fr, b, q).value.address == Translate(fr, b, r).value.address
  }

  /** Every page is mapped to the kernel image or to a frame in use. */
  ghost predicate Backed(fr: Frames, pool: set<nat>, kernelEnd: nat, root: nat) {
    forall q: seq<nat> :: |q| == 4 && IsPath(q) && Translate(fr, root, q).Some? ==>
      var f := Translate(fr, root, q).value.address; f * PAGE <= kernelEnd || (f in fr && f !in pool)
  }

  /** pgdir_clone: the copy of an address space, or 0. */
  method PgdirClone(m: Mmu, kernelEnd: nat, a: nat) returns (b: nat)
    requires m.Valid() && Tree(m.frames, m.pool, a) && Backed(m.frames, m.pool, kernelEnd, a)
    modifies m, m.window
    ensures m.Valid() && SameTranslation(old(m.frames), m.frames, a)
    ensures Grown(old(m.frames), old(m.pool), m.frames, m.pool)
    ensures b != 0 <==>
      |old(m.pool)| >= Need(old(m.frames), kernelEnd, 0, a) && forall q: seq<nat> :: !MapsZero(old(m.frames), a, q)
    ensures b != 0 ==> |old(m.pool)| == |m.pool| + Need(old(m.frames), kernelEnd, 0, a)
    ensures b != 0 ==> Tree(m.frames, m.pool, b)
    ensures b != 0 ==> SameWays(old(m.frames), a, m.frames, a) && SameWays(old(m.frames), a, m.frames, b)
    ensures b != 0 ==>
      forall q: seq<nat> :: |q| == 4 && IsPath(q) ==> Rights(m.frames, b, q) == Rights(old(m.frames), a, q)
    ensures b != 0 ==> forall p: seq<nat>, q: seq<nat>, t: nat :: TableAt(m.frames, a, p, t) ==>
      !TableAt(m.frames, b, q, t)
    ensures b != 0 ==> forall q: seq<nat> :: |q| == 4 && IsPath(q) ==>
      Mirrors(m.frames, kernelEnd, old(m.pool) - m.pool, Translate(old(m.frames), a, q), Translate(m.frames, b, q))
    ensures b != 0 ==> forall q: seq<nat>, r: seq<nat> :: OneFrame(m.frames, kernelEnd, a, b, q, r) ==> q == r
    ensures b != 0 ==> forall p: seq<nat>, q: seq<nat>, t: nat :: TableAt(m.frames, b, p, t) ==>
      !Holds(m.frames, kernelEnd, a, b, q, t)
  {
    hide Sound, Clone, Owned, Mirrors, OneFrame, Holds, Translate, TableAt, Tree, Backed, HasZero, MapsZero, Need;
    hide SameWays, Rights;
    ghost var fr0, pool0 := m.frames, m.pool;
    TopSound(fr0, pool0, kernelEnd, a);
    b := TableClone(m, kernelEnd, 0, a);
    OriginalKept(fr0, pool0, m.frames, kernelEnd, a);
    if b != 0 {
      CloneTheorem(fr0, pool0, m.frames, m.pool, kernelEnd, a, b);
      forall q: seq<nat> ensures !MapsZero(fr0, a, q) {
        NoZero(fr0, m.frames, kernelEnd, pool0 - m.pool, a, b, q);
      }
    } else if HasZero(fr0, 0, a) {
      var q := ZeroPath(fr0, a, [], a);
    }
  }

  /** Page `q` is mapped to frame 0. */
  ghost predicate MapsZero(fr: Frames, root: nat, q: seq<nat>) {
    |q| == 4 && IsPath(q) && Translate(fr, root, q).Some? && Translate(fr, root, q).value.address == 0
  }

  lemma NoZero(fr0: Frames, fr: Frames, kernelEnd: nat, own: set<nat>, a: nat, b: nat, q: seq<nat>)
    requires |q| == 4 && IsPath(q) ==> Mirrors(fr, kernelEnd, own, Translate(fr0, a, q), Translate(fr, b, q))
    ensures !MapsZero(fr0, a, q)
  {
    hide Translate;
  }

  lemma {:induction false} ZeroPath(fr: Frames, root: nat, p: seq<nat>, t: nat) returns (q: seq<nat>)
    requires |p| <= 4 && IsPath(p) && Lookup(fr, root, p) == Some(t) && HasZero(fr, |p|, t)
    ensures MapsZero(fr, root, q)
    decreases 4 - |p|
  {
    if |p| == 4 {
      q := p;
      assert p == p[..3] + [p[3]];
      LookupSnoc(fr, root, p[..3], p[3]);
    } else {
      var i :| 0 <= i < ENTRIES && Present(fr[t][i]) && HasZero(fr, |p| + 1, fr[t][i].address);
      LookupSnoc(fr, root, p, i);
      q := ZeroPath(fr, root, p + [i], fr[t][i].address);
    }
  }

  lemma TopSound(fr: Frames, pool: set<nat>, kernelEnd: nat, root: nat)
    requires Tree(fr, pool, root) && Backed(fr, pool, kernelEnd, root)
    ensures Sound(fr, pool, kernelEnd, 0, root)
  {
    TreeSound(fr, pool, kernelEnd, root, [], root);
  }

  /** An address space whose tables form a tree and whose private frames are in use is fit for copying. */
  lemma {:induction false} TreeSound(fr: Frames, pool: set<nat>, kernelEnd: nat, root: nat, p: seq<nat>, t: nat)
    requires Tree(fr, pool, root) && |p| <= 4 && IsPath(p) && Lookup(fr, root, p) == Some(t)
    requires Backed(fr, pool, kernelEnd, root)
    ensures Sound(fr, pool, kernelEnd, |p|, t)
    decreases 4 - |p|
  {
    if |p| == 4 {
      assert p == p[..3] + [p[3]];
      LookupSnoc(fr, root, p[..3], p[3]);
      assert Translate(fr, root, p).Some?;
    } else {
      assert TableAt(fr, root, p, t);
      forall i | 0 <= i < ENTRIES && Present(fr[t][i]) ensures Sound(fr, pool, kernelEnd, |p| + 1, fr[t][i].address) {
        LookupSnoc(fr, root, p, i);
        TreeSound(fr, pool, kernelEnd, root, p + [i], fr[t][i].address);
      }
    }
  }

  // ---------------------------------------------------------------- a page that maps frame 0

  /** An address space that maps nothing yet, with an empty table `f` at the end of a path. */
  ghost predicate Deep(fr: Frames, pool: set<nat>, root: nat, p: seq<nat>, f: nat) {
    && Tree(fr, pool, root) && TableAt(fr, root, p, f) && f in fr && !Present(fr[f][0]) && f !in pool
    && pool <= fr.Keys && MapsNothing(fr, root)
  }

  ghost predicate MapsNothing(fr: Frames, root: nat) {
    forall q: seq<nat> :: |q| == 4 && IsPath(q) ==> Translate(fr, root, q) == None
  }

  lemma Shallow(fr: Frames, pool: set<nat>, root: nat)
    requires root in fr && fr[root] == BLANK && root !in pool && root != 0 && pool <= fr.Keys
    ensures Deep(fr, pool, root, [], root)
  {
    hide Translate;
    BlankTree(fr, pool, root);
    forall q: seq<nat> | |q| == 4 && IsPath(q) ensures Translate(fr, root, q) == None {
      var v := PageOf(q);
    }
  }

  lemma Deepen(fr: Frames, pool: set<nat>, root: nat, p: seq<nat>, f: nat, g: nat) returns (fr': Frames)
    requires Deep(fr, pool, root, p, f) && |p| <= 2 && g in pool && g != 0
    ensures Deep(fr', pool - {g}, root, p + [0], g) && fr'.Keys == fr.Keys
  {
    hide Tree, TableAt, Translate;
    Hang(fr, pool, root, p, f, 0, g, 0);
    fr' := Put(fr[g := BLANK], f, 0, Linked(fr[f][0], g, 0));
  }

  /** However many frames are left, there is an address space that cannot be copied: one page of it maps
      frame 0. */
  lemma ZeroUncloned(pool: set<nat>, kernelEnd: nat) returns (fr: Frames, root: nat)
    requires pool !! {0, 1, 2, 3, 4}
    ensures pool <= fr.Keys && Tree(fr, pool, root) && Backed(fr, pool, kernelEnd, root)
    ensures MapsZero(fr, root, [0, 0, 0, 0])
  {
    hide Tree, TableAt, Translate, Deep;
    fr, root := map f | f in pool + {1, 2, 3, 4} :: BLANK, 1;
    Shallow(fr, pool + {2, 3, 4}, root);
    fr := Deepen(fr, pool + {2, 3, 4}, root, [], root, 2);
    assert pool + {2, 3, 4} - {2} == pool + {3, 4};
    fr := Deepen(fr, pool + {3, 4}, root, [] + [0], 2, 3);
    assert pool + {3, 4} - {3} == pool + {4};
    fr := Deepen(fr, pool + {4}, root, [] + [0] + [0], 3, 4);
    assert pool + {4} - {4} == pool;
    fr := PutZero(fr, pool, root, kernelEnd, [] + [0] + [0] + [0], 4);
    assert [] + [0] + [0] + [0] + [0] == [0, 0, 0, 0];
  }

  lemma PutZero(fr: Frames, pool: set<nat>, root: nat, kernelEnd: nat, p: seq<nat>, f: nat) returns (fr': Frames)
    requires Deep(fr, pool, root, p, f) && |p| == 3
    ensures fr'.Keys == fr.Keys && Tree(fr', pool, root) && Backed(fr', pool, kernelEnd, root)
    ensures MapsZero(fr', root, p + [0])
  {
    hide Tree, Translate;
    var e := Entry(F_PRESENT, 0, false, 0);
    LeafKeeps(fr, pool, root, p, f, 0, e);
    fr' := Put(fr, f, 0, e);
  }
}
