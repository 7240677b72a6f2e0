/**
 Size-based rotation by numbered backups: the shift of a backup chain that both writers perform, and
 the plain rotating writer. File 0 is the current file, file n its n-th backup. No I/O error occurs.
 */
module LogRotation {
  import opened Prelude

  type Bytes = string

  type Files = map<nat, Bytes>

  function Content(files: Files, n: nat): Bytes { if n in files then files[n] else [] }

  /** What the files hold from backup n to the current file, oldest first. */
  function Chain(files: Files, n: nat): Bytes
  {
    Content(files, n) + if n == 0 then [] else Chain(files, n - 1)
  }

  lemma Associates(a: Bytes, b: Bytes, c: Bytes)
    ensures a + (b + c) == (a + b) + c
  {
  }

  // ----- The shift -----

  predicate InShifted(files: Files, n: nat, k: nat)
  {
    if k > n then k in files
    else (k > 0 && k - 1 in files) || (k == n && n in files)
  }

  /** Each file moves up by one; a gap stays a gap, and only the oldest is dropped, when its place is needed. */
  function Shifted(files: Files, n: nat): Files
    requires n >= 1
  {
    map k: nat | k in files.Keys + (set j: nat | j in files :: j + 1) && InShifted(files, n, k) ::
      if 0 < k <= n && k - 1 in files then files[k - 1] else files[k]
  }

  /** The bytes a shift drops. */
  function Dropped(files: Files, n: nat): Bytes
    requires n >= 1
  {
    if n - 1 in files then Content(files, n) else []
  }

  lemma ShiftedDomain(files: Files, n: nat)
    requires n >= 1
    ensures forall k: nat :: k in Shifted(files, n) <==> InShifted(files, n, k)
  {
    forall k: nat | InShifted(files, n, k)
      ensures k in Shifted(files, n)
    {
      if k > 0 && k - 1 in files {
        assert k == (k - 1) + 1;
      }
    }
  }

  function Get(files: Files, k: nat): Option<Bytes> { if k in files then Some(files[k]) else None }

  /** File k once the places above i have been filled. */
  function PartlyShifted(files: Files, n: nat, i: nat, k: nat): Option<Bytes>
  {
    if k > n || k < i || (k == i == n) then Get(files, k)
    else if k == i then None
    else if k - 1 in files then Get(files, k - 1)
    else if k == n then Get(files, n)
    else None
  }

  ghost predicate ShiftedDownTo(files: Files, n: nat, i: nat, shifted: Files)
  {
    forall k: nat :: Get(shifted, k) == PartlyShifted(files, n, i, k)
  }

  /** One trip round the shift loop. The rename finds its target free. */
  lemma RenameStep(files: Files, n: nat, i: nat, shifted: Files)
    requires 1 <= i <= n && ShiftedDownTo(files, n, i, shifted)
    ensures i - 1 in shifted <==> i - 1 in files
    ensures i < n ==> i !in shifted
    ensures i - 1 !in shifted ==> ShiftedDownTo(files, n, i - 1, shifted)
    ensures i - 1 in shifted ==>
              ShiftedDownTo(files, n, i - 1,
                ((if i == n then shifted - {i} else shifted) - {i - 1})[i := shifted[i - 1]])
  {
    assert Get(shifted, i - 1) == Get(files, i - 1);
    assert Get(shifted, i) == PartlyShifted(files, n, i, i);
    if i - 1 in shifted {
      var renamed := ((if i == n then shifted - {i} else shifted) - {i - 1})[i := shifted[i - 1]];
      forall k: nat ensures Get(renamed, k) == PartlyShifted(files, n, i - 1, k) {
        assert Get(shifted, k) == PartlyShifted(files, n, i, k);
      }
    } else {
      forall k: nat ensures Get(shifted, k) == PartlyShifted(files, n, i - 1, k) {
        assert Get(shifted, k) == PartlyShifted(files, n, i, k);
      }
    }
  }

  lemma ShiftIsComplete(files: Files, n: nat, shifted: Files)
    requires n >= 1 && ShiftedDownTo(files, n, 0, shifted)
    ensures shifted == Shifted(files, n)
  {
    ShiftedDomain(files, n);
    forall k: nat ensures Get(shifted, k) == Get(Shifted(files, n), k) {
      assert Get(shifted, k) == PartlyShifted(files, n, 0, k);
    }
    assert forall k: nat :: k in shifted <==> Get(shifted, k).Some?;
    assert forall k: nat :: k in Shifted(files, n) <==> Get(Shifted(files, n), k).Some?;
    forall k: nat | k in shifted ensures shifted[k] == Shifted(files, n)[k] {
      assert Get(shifted, k) == Get(Shifted(files, n), k);
    }
  }

  /** Rename backup n-1 to n and so on down to the current file, as the source does it in place. */
  method ShiftBackups(files: Files, n: nat) returns (shifted: Files)
    requires n >= 1
    ensures shifted == Shifted(files, n)
  {
    shifted := files;
    var i := n;
    while i >= 1
      invariant 0 <= i <= n
      invariant ShiftedDownTo(files, n, i, shifted)
    {
      var src, dst := i - 1, i;
      RenameStep(files, n, i, shifted);
      if src in shifted {
        if i == n {
          shifted := shifted - {dst};
        }
        shifted := (shifted - {src})[dst := shifted[src]];
      }
      i := i - 1;
    }
    ShiftIsComplete(files, n, shifted);
  }

  lemma {:induction false} ShiftMovesUp(files: Files, n: nat, m: nat)
    requires 1 <= m < n
    ensures Chain(Shifted(files, n)[0 := []], m) == Chain(files, m - 1)
  {
    var reopened := Shifted(files, n)[0 := []];
    ShiftedDomain(files, n);
    assert m in Shifted(files, n) <==> m - 1 in files;
    assert Content(reopened, m) == Content(files, m - 1);
    if m == 1 {
      assert Chain(reopened, 0) == [];
    } else {
      ShiftMovesUp(files, n, m - 1);
    }
  }

  /** The last place takes the file before it, or keeps its own when there is none. */
  lemma LastPlace(files: Files, n: nat)
    requires n >= 1
    ensures Content(Shifted(files, n)[0 := []], n) ==
            if n - 1 in files then Content(files, n - 1) else Content(files, n)
  {
    ShiftedDomain(files, n);
  }

  lemma {:induction false} FreshCurrent(files: Files, n: nat)
    requires n >= 1
    ensures Chain(Shifted(files, n)[0 := []], n - 1) == if n == 1 then [] else Chain(files, n - 2)
  {
    if n > 1 {
      ShiftMovesUp(files, n, n - 1);
    } else {
      assert Content(Shifted(files, n)[0 := []], 0) + [] == [];
    }
  }

  /** Shifting and opening a fresh current file drops at most the oldest bytes and keeps the rest in order. */
  lemma ShiftKeepsTheRest(files: Files, n: nat)
    requires n >= 1
    ensures Chain(files, n) == Dropped(files, n) + Chain(Shifted(files, n)[0 := []], n)
  {
    LastPlace(files, n);
    FreshCurrent(files, n);
    var rest := if n == 1 then [] else Chain(files, n - 2);
    assert Chain(files, n) == Content(files, n) + (Content(files, n - 1) + rest);
    assert Chain(Shifted(files, n)[0 := []], n) == Content(Shifted(files, n)[0 := []], n) + rest;
    Associates(Content(files, n), Content(files, n - 1), rest);
    if n - 1 in files {
      Associates(Dropped(files, n), Content(files, n - 1), rest);
    } else {
      assert Content(files, n - 1) + rest == rest;
      assert [] + (Content(files, n) + rest) == Content(files, n) + rest;
    }
  }

  // ----- Suffixes -----

  predicate IsSuffix(a: Bytes, b: Bytes)
  {
    |a| <= |b| && a == b[|b| - |a|..]
  }

  /** If a chain is a suffix and a write drops its oldest bytes and adds p at the end, it stays one. */
  lemma SuffixAfterWrite(chain: Bytes, whole: Bytes, dropped: Bytes, after: Bytes, p: Bytes)
    requires IsSuffix(chain, whole) && dropped + after == chain + p
    ensures IsSuffix(after, whole + p)
  {
    var k := |whole| - |chain|;
    assert whole == whole[..k] + chain;
    assert whole + p == whole[..k] + (chain + p);
    assert whole + p == (whole[..k] + dropped) + after;
  }

  // ----- The rotating writer -----

  predicate MustRotate(maxSize: int, size: int, p: Bytes) { maxSize > 0 && size + |p| > maxSize }

  function Appended(files: Files, p: Bytes): Files { files[0 := Content(files, 0) + p] }

  function Rotated(files: Files, maxBackups: nat): Files
    requires maxBackups >= 1
  {
    Shifted(files, maxBackups)[0 := []]
  }

  function AfterWrite(files: Files, size: int, maxSize: int, maxBackups: nat, p: Bytes): Files
    requires maxBackups >= 1
  {
    Appended(if MustRotate(maxSize, size, p) then Rotated(files, maxBackups) else files, p)
  }

  class RotatingWriter {
    const maxSize: int
    const maxBackups: nat
    var size: int
    var files: Files

    predicate Valid()
      reads this
    {
      maxBackups >= 1 && 0 in files && (maxSize > 0 ==> size == |files[0]|)
    }

    /** Opens the current file in a directory that may hold files of earlier writers, gaps included. */
    constructor (existing: Files, maxSize: int, maxBackups: nat)
      requires maxBackups >= 1
      ensures Valid() && this.maxSize == maxSize && this.maxBackups == maxBackups
      ensures files == Appended(existing, [])
    {
      this.maxSize := maxSize;
      this.maxBackups := maxBackups;
      files := if 0 in existing then existing else existing[0 := []];
      size := if maxSize > 0 then (if 0 in existing then |existing[0]| else 0) else 0;
      new;
      assert Content(existing, 0) + [] == Content(existing, 0);
      assert files == Appended(existing, []);
    }

    method Rotate()
      requires Valid()
      modifies this
      ensures files == Rotated(old(files), maxBackups) && size == 0
    {
      var shifted := ShiftBackups(files, maxBackups);
      // The current file was renamed away, so opening its path creates an empty one.
      files := if 0 in shifted then shifted else shifted[0 := []];
      size := 0;
    }

    method Write(p: Bytes) returns (n: nat)
      requires Valid()
      modifies this
      ensures Valid() && n == |p|
      ensures files == AfterWrite(old(files), old(size), maxSize, maxBackups, p)
      ensures maxSize > 0 ==> |files[0]| <= Max(maxSize, |p|)
    {
      if maxSize > 0 && size + |p| > maxSize {
        Rotate();
      }
      files := files[0 := files[0] + p];
      size := size + |p|;
      n := |p|;
    }
  }

  // ----- What survives -----

  /** One write: the oldest bytes may go, the new ones come last, and all of them in the current file. */
  lemma WriteKeepsASuffix(files: Files, size: int, maxSize: int, maxBackups: nat, p: Bytes)
    requires maxBackups >= 1
    ensures var files' := AfterWrite(files, size, maxSize, maxBackups, p);
            var dropped := if MustRotate(maxSize, size, p) then Dropped(files, maxBackups) else [];
            && dropped + Chain(files', maxBackups) == Chain(files, maxBackups) + p
            && IsSuffix(p, Content(files', 0))
            && forall k | k > maxBackups :: Content(files', k) == Content(files, k)
  {
    var before := if MustRotate(maxSize, size, p) then Rotated(files, maxBackups) else files;
    AppendedChain(before, maxBackups, p);
    assert Content(Appended(before, p), 0)[|Content(before, 0)|..] == p;
    if MustRotate(maxSize, size, p) {
      ShiftKeepsTheRest(files, maxBackups);
      Associates(Dropped(files, maxBackups), Chain(before, maxBackups), p);
      ShiftedDomain(files, maxBackups);
    }
  }

  lemma {:induction false} AppendedChain(files: Files, n: nat, p: Bytes)
    ensures Chain(Appended(files, p), n) == Chain(files, n) + p
  {
    if n > 0 {
      AppendedChain(files, n - 1, p);
    }
  }

  datatype Writer = Writer(files: Files, size: int)

  function OneWrite(w: Writer, maxSize: int, maxBackups: nat, p: Bytes): Writer
    requires maxBackups >= 1
  {
    Writer(AfterWrite(w.files, w.size, maxSize, maxBackups, p),
      (if MustRotate(maxSize, w.size, p) then 0 else w.size) + |p|)
  }

  /** The writer's files and tracked size after a series of writes. */
  function AfterWrites(w: Writer, maxSize: int, maxBackups: nat, ps: seq<Bytes>): Writer
    requires maxBackups >= 1
  {
    if ps == [] then w
    else OneWrite(AfterWrites(w, maxSize, maxBackups, ps[..|ps| - 1]), maxSize, maxBackups, ps[|ps| - 1])
  }

  function Concat(ps: seq<Bytes>): Bytes
  {
    if ps == [] then [] else Concat(ps[..|ps| - 1]) + ps[|ps| - 1]
  }

  /** The files hold a suffix of `whole`, and the tracked size is right. */
  ghost predicate Holds(w: Writer, maxBackups: nat, whole: Bytes)
  {
    IsSuffix(Chain(w.files, maxBackups), whole) && w.size == |Content(w.files, 0)|
  }

  lemma OneWriteHolds(w: Writer, maxSize: int, maxBackups: nat, whole: Bytes, p: Bytes)
    requires maxBackups >= 1 && maxSize > 0 && Holds(w, maxBackups, whole)
    ensures Holds(OneWrite(w, maxSize, maxBackups, p), maxBackups, whole + p)
    ensures OneWrite(w, maxSize, maxBackups, p).size <= Max(maxSize, |p|)
  {
    var w' := OneWrite(w, maxSize, maxBackups, p);
    WriteKeepsASuffix(w.files, w.size, maxSize, maxBackups, p);
    var dropped := if MustRotate(maxSize, w.size, p) then Dropped(w.files, maxBackups) else [];
    SuffixAfterWrite(Chain(w.files, maxBackups), whole, dropped, Chain(w'.files, maxBackups), p);
  }

  /**
   Whatever was in the directory, gaps in the chain included: after any writes the files hold, oldest
   backup to current file, a suffix of what they held at first followed by everything written; the
   tracked size is the size of the current file, which is within the limit or is one single write.
   */
  lemma {:induction false} FilesHoldASuffix(files: Files, maxSize: int, maxBackups: nat, ps: seq<Bytes>)
    requires maxBackups >= 1 && maxSize > 0
    ensures var w := AfterWrites(Writer(files, |Content(files, 0)|), maxSize, maxBackups, ps);
            && Holds(w, maxBackups, Chain(files, maxBackups) + Concat(ps))
            && (ps != [] ==> w.size <= Max(maxSize, |ps[|ps| - 1]|))
  {
    var start := Writer(files, |Content(files, 0)|);
    if ps == [] {
      assert Chain(files, maxBackups) + [] == Chain(files, maxBackups);
    } else {
      var init, p := ps[..|ps| - 1], ps[|ps| - 1];
      FilesHoldASuffix(files, maxSize, maxBackups, init);
      OneWriteHolds(AfterWrites(start, maxSize, maxBackups, init), maxSize, maxBackups,
        Chain(files, maxBackups) + Concat(init), p);
      Associates(Chain(files, maxBackups), Concat(init), p);
    }
  }

  // ----- What cannot be lost -----

  /** A rotation keeps everything up to backup r - 1, one place further up. */
  lemma RotationKeepsTheNewest(files: Files, n: nat, r: nat)
    requires 1 <= r <= n
    ensures IsSuffix(Chain(files, r - 1), Chain(Rotated(files, n), r))
  {
    if r < n {
      ShiftMovesUp(files, n, r);
    } else {
      RotationKeepsAllButTheLast(files, n);
    }
  }

  lemma ChainFrom(files: Files, n: nat, rest: Bytes)
    requires rest == if n == 0 then [] else Chain(files, n - 1)
    ensures Chain(files, n) == Content(files, n) + rest
  {
  }

  lemma RotationKeepsAllButTheLast(files: Files, n: nat)
    requires n >= 1
    ensures IsSuffix(Chain(files, n - 1), Chain(Rotated(files, n), n))
  {
    LastPlace(files, n);
    FreshCurrent(files, n);
    var rest := if n == 1 then [] else Chain(files, n - 2);
    ChainFrom(files, n - 1, rest);
    ChainFrom(Rotated(files, n), n, rest);
    ShorterIsSuffix(Content(Rotated(files, n), n), Content(files, n - 1), rest);
  }

  lemma ShorterIsSuffix(a: Bytes, b: Bytes, rest: Bytes)
    requires a == b || b == []
    ensures IsSuffix(b + rest, a + rest)
  {
  }

  lemma SuffixThen(a: Bytes, b: Bytes, p: Bytes)
    requires IsSuffix(a, b)
    ensures IsSuffix(a + p, b + p)
  {
    var k := |b| - |a|;
    assert b == b[..k] + a;
    assert b + p == b[..k] + (a + p);
  }

  lemma SuffixOfSuffix(a: Bytes, b: Bytes, c: Bytes)
    requires IsSuffix(a, b) && IsSuffix(b, c)
    ensures IsSuffix(a, c)
  {
    var i, j := |b| - |a|, |c| - |b|;
    assert c == c[..j] + b && b == b[..i] + a;
    assert c == (c[..j] + b[..i]) + a;
  }

  function Rotations(w: Writer, maxSize: int, maxBackups: nat, ps: seq<Bytes>): nat
    requires maxBackups >= 1
  {
    if ps == [] then 0
    else
      var init := ps[..|ps| - 1];
      Rotations(w, maxSize, maxBackups, init)
      + if MustRotate(maxSize, AfterWrites(w, maxSize, maxBackups, init).size, ps[|ps| - 1]) then 1 else 0
  }

  /** What has gone to the current file and to the r files before it, the last r rotations lying in between. */
  function Recent(w: Writer, maxSize: int, maxBackups: nat, ps: seq<Bytes>, r: nat): Bytes
    requires maxBackups >= 1
  {
    if ps == [] then Content(w.files, 0)
    else
      var init, p := ps[..|ps| - 1], ps[|ps| - 1];
      if !MustRotate(maxSize, AfterWrites(w, maxSize, maxBackups, init).size, p) then
        Recent(w, maxSize, maxBackups, init, r) + p
      else if r == 0 then p
      else Recent(w, maxSize, maxBackups, init, r - 1) + p
  }

  lemma OneWriteKeepsRecent(w: Writer, maxSize: int, maxBackups: nat, p: Bytes, recent: Bytes, r: nat)
    requires 1 <= maxBackups && r <= maxBackups
    requires MustRotate(maxSize, w.size, p) && r > 0 ==> IsSuffix(recent, Chain(w.files, r - 1))
    requires !MustRotate(maxSize, w.size, p) ==> IsSuffix(recent, Chain(w.files, r))
    ensures var kept := if MustRotate(maxSize, w.size, p) && r == 0 then p else recent + p;
            IsSuffix(kept, Chain(OneWrite(w, maxSize, maxBackups, p).files, r))
  {
    var before := if MustRotate(maxSize, w.size, p) then Rotated(w.files, maxBackups) else w.files;
    AppendedChain(before, r, p);
    if MustRotate(maxSize, w.size, p) && r == 0 {
      assert Chain(before, 0) == [] && [] + p == p;
    } else {
      if MustRotate(maxSize, w.size, p) {
        RotationKeepsTheNewest(w.files, maxBackups, r);
        SuffixOfSuffix(recent, Chain(w.files, r - 1), Chain(before, r));
      }
      SuffixThen(recent, Chain(before, r), p);
    }
  }

  /** Whatever was written since the rotation before the last r is still there, for every r up to maxBackups. */
  lemma {:induction false} RecentWritesSurvive(w: Writer, maxSize: int, maxBackups: nat, ps: seq<Bytes>, r: nat)
    requires 1 <= maxBackups && r <= maxBackups
    ensures IsSuffix(Recent(w, maxSize, maxBackups, ps, r), Chain(AfterWrites(w, maxSize, maxBackups, ps).files, r))
  {
    if ps == [] {
      assert Chain(w.files, r)[|Chain(w.files, r)| - |Content(w.files, 0)|..] == Content(w.files, 0) by {
        CurrentIsLast(w.files, r);
      }
    } else {
      var init, p := ps[..|ps| - 1], ps[|ps| - 1];
      var before := AfterWrites(w, maxSize, maxBackups, init);
      var rotates := MustRotate(maxSize, before.size, p);
      var back: nat := if rotates && r > 0 then r - 1 else r;
      RecentWritesSurvive(w, maxSize, maxBackups, init, back);
      OneWriteKeepsRecent(before, maxSize, maxBackups, p, Recent(w, maxSize, maxBackups, init, back), r);
    }
  }

  lemma {:induction false} CurrentIsLast(files: Files, n: nat)
    ensures IsSuffix(Content(files, 0), Chain(files, n))
  {
    if n == 0 {
      assert Content(files, 0) + [] == Content(files, 0);
    } else {
      CurrentIsLast(files, n - 1);
      assert IsSuffix(Chain(files, n - 1), Chain(files, n));
      SuffixOfSuffix(Content(files, 0), Chain(files, n - 1), Chain(files, n));
    }
  }

  lemma {:induction false} FewRotationsLoseNothing(w: Writer, maxSize: int, maxBackups: nat, ps: seq<Bytes>, r: nat)
    requires maxBackups >= 1 && Rotations(w, maxSize, maxBackups, ps) <= r
    ensures Recent(w, maxSize, maxBackups, ps, r) == Content(w.files, 0) + Concat(ps)
  {
    if ps == [] {
      assert Content(w.files, 0) + [] == Content(w.files, 0);
    } else {
      var init, p := ps[..|ps| - 1], ps[|ps| - 1];
      var rotates := MustRotate(maxSize, AfterWrites(w, maxSize, maxBackups, init).size, p);
      FewRotationsLoseNothing(w, maxSize, maxBackups, init, if rotates then r - 1 else r);
      Associates(Content(w.files, 0), Concat(init), p);
    }
  }

  /** Up to maxBackups rotations lose nothing that was in the current file or has been written. */
  lemma NothingIsLostAtFirst(w: Writer, maxSize: int, maxBackups: nat, ps: seq<Bytes>)
    requires maxBackups >= 1 && Rotations(w, maxSize, maxBackups, ps) <= maxBackups
    ensures IsSuffix(Content(w.files, 0) + Concat(ps), Chain(AfterWrites(w, maxSize, maxBackups, ps).files, maxBackups))
  {
    RecentWritesSurvive(w, maxSize, maxBackups, ps, maxBackups);
    FewRotationsLoseNothing(w, maxSize, maxBackups, ps, maxBackups);
  }

  // ----- Files are rotated only when they are full -----

  /** The write finds room after what the current file holds; without a limit there is always room. */
  predicate Fits(maxSize: int, current: Bytes, p: Bytes) { maxSize <= 0 || |current| + |p| <= maxSize }

  /**
   By the size of the current file: a write that fits is appended and no backup changes. One that does not
   fit starts a new current file, the old one being the first backup and every other backup one further up.
   */
  lemma RotatesIffFull(files: Files, maxSize: int, maxBackups: nat, p: Bytes)
    requires maxBackups >= 1 && 0 in files
    ensures var files' := AfterWrite(files, |files[0]|, maxSize, maxBackups, p);
            && (Fits(maxSize, files[0], p) ==> files' == files[0 := files[0] + p])
            && (!Fits(maxSize, files[0], p) ==>
                  && Get(files', 0) == Some(p) && Get(files', 1) == Some(files[0])
                  && (forall k: nat | 1 < k <= maxBackups && k - 1 in files :: Get(files', k) == Some(files[k - 1]))
                  && (forall k: nat | 1 < k < maxBackups && k - 1 !in files :: k !in files')
                  && (forall k: nat | k > maxBackups :: Get(files', k) == Get(files, k)))
  {
    if !Fits(maxSize, files[0], p) {
      ShiftedDomain(files, maxBackups);
      assert [] + p == p;
    }
  }

  lemma {:induction false} TrackedSizeIsTrue(w: Writer, maxSize: int, maxBackups: nat, ps: seq<Bytes>)
    requires maxBackups >= 1 && 0 in w.files && w.size == |w.files[0]|
    ensures var w' := AfterWrites(w, maxSize, maxBackups, ps);
            0 in w'.files && w'.size == |w'.files[0]|
  {
    if ps != [] {
      var before := AfterWrites(w, maxSize, maxBackups, ps[..|ps| - 1]);
      TrackedSizeIsTrue(w, maxSize, maxBackups, ps[..|ps| - 1]);
      RotatesIffFull(before.files, maxSize, maxBackups, ps[|ps| - 1]);
    }
  }

  /** Writes that fit together all go to the current file, however many they are, and no backup changes. */
  lemma {:induction false} SmallWritesShareAFile(files: Files, maxSize: int, maxBackups: nat, ps: seq<Bytes>)
    requires maxBackups >= 1 && 0 in files && Fits(maxSize, files[0], Concat(ps))
    ensures AfterWrites(Writer(files, |files[0]|), maxSize, maxBackups, ps).files == files[0 := files[0] + Concat(ps)]
  {
    if ps == [] {
      assert files[0] + [] == files[0];
    } else {
      var init, p := ps[..|ps| - 1], ps[|ps| - 1];
      var start := Writer(files, |files[0]|);
      SmallWritesShareAFile(files, maxSize, maxBackups, init);
      TrackedSizeIsTrue(start, maxSize, maxBackups, init);
      RotatesIffFull(AfterWrites(start, maxSize, maxBackups, init).files, maxSize, maxBackups, p);
      Associates(files[0], Concat(init), p);
    }
  }

  /** No gap, nothing beyond maxBackups, and each backup and the file after it together exceed the limit. */
  ghost predicate WellFilled(files: Files, maxSize: int, maxBackups: nat)
  {
    && 0 in files
    && forall k: nat | k in files && k > 0 ::
         k <= maxBackups && k - 1 in files && |files[k]| + |files[k - 1]| > maxSize
  }

  lemma WriteKeepsFilled(files: Files, maxSize: int, maxBackups: nat, p: Bytes)
    requires maxBackups >= 1 && maxSize > 0 && WellFilled(files, maxSize, maxBackups)
    ensures WellFilled(AfterWrite(files, |files[0]|, maxSize, maxBackups, p), maxSize, maxBackups)
  {
    var files' := AfterWrite(files, |files[0]|, maxSize, maxBackups, p);
    RotatesIffFull(files, maxSize, maxBackups, p);
    if !Fits(maxSize, files[0], p) {
      ShiftedDomain(files, maxBackups);
      forall k: nat | k in files' && k > 0
        ensures k <= maxBackups && k - 1 in files' && |files'[k]| + |files'[k - 1]| > maxSize
      {
        assert Get(files', k).Some?;
        if k > 1 {
          assert k - 1 in files && Get(files', k) == Some(files[k - 1]);
          assert k - 2 in files && Get(files', k - 1) == Some(files[k - 2]);
        }
      }
    }
  }

  /**
   In a directory without backups: after any writes no file has been rotated away early, as each backup and
   the file after it together exceed the limit.
   */
  lemma {:induction false} FilesAreWellFilled(current: Bytes, maxSize: int, maxBackups: nat, ps: seq<Bytes>)
    requires maxBackups >= 1 && maxSize > 0
    ensures var w := AfterWrites(Writer(map[0 := current], |current|), maxSize, maxBackups, ps);
            WellFilled(w.files, maxSize, maxBackups)
  {
    var start := Writer(map[0 := current], |current|);
    if ps != [] {
      var init := ps[..|ps| - 1];
      FilesAreWellFilled(current, maxSize, maxBackups, init);
      TrackedSizeIsTrue(start, maxSize, maxBackups, init);
      WriteKeepsFilled(AfterWrites(start, maxSize, maxBackups, init).files, maxSize, maxBackups, ps[|ps| - 1]);
    }
  }
}
