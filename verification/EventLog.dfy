/**
 The JSONL event writer: one backup chain per day, a write buffer before the current file, and a
 tracked size that counts buffered bytes. No I/O error occurs. The buffer may empty itself at any
 write; how far is a parameter.
 */
module EventLog {
  import opened Prelude
  import opened LogRotation

  type Date = string

  /** `open` is the date of the file held open, None when there is none. */
  datatype State = State(days: map<Date, Files>, open: Option<Date>, buf: Bytes, size: int, closed: bool) {

    function Day(date: Date): Files { if date in days then days[date] else map[] }

    predicate Valid()
    {
      && (open == None ==> buf == [])
      && (open.Some? ==> 0 in Day(open.value) && (!closed ==> size == |Day(open.value)[0]| + |buf|))
    }

    /** What is recorded for a day: its files, oldest first, and for the open day the buffered bytes. */
    function Recorded(date: Date, maxBackups: nat): Bytes
    {
      Chain(Day(date), maxBackups) + if open == Some(date) then buf else []
    }
  }

  // ----- Steps -----

  function Flushed(s: State): State
  {
    if s.open == None then s
    else s.(days := s.days[s.open.value := Appended(s.Day(s.open.value), s.buf)], buf := [])
  }

  /** ensureFile: flush and leave the file of another day, open or create this day's. */
  function Ensured(s: State, date: Date): State
  {
    if s.open == Some(date) then s
    else
      var left := Flushed(s);
      var files := Appended(left.Day(date), []);
      left.(days := left.days[date := files], open := Some(date), buf := [], size := |files[0]|)
  }

  function RotatedDay(s: State, maxBackups: nat): State
    requires s.open.Some? && maxBackups >= 1
  {
    var flushed := Flushed(s);
    flushed.(days := flushed.days[s.open.value := Rotated(flushed.Day(s.open.value), maxBackups)], size := 0)
  }

  /** The buffer hands its first bytes to the file. */
  function Spilled(s: State, count: nat): State
    requires s.open.Some?
  {
    var k := Min(count, |s.buf|);
    s.(days := s.days[s.open.value := Appended(s.Day(s.open.value), s.buf[..k])], buf := s.buf[k..])
  }

  /** The state with room for the line: the day's file open, rotated when the line would not fit. */
  function Roomy(s: State, maxSize: int, maxBackups: nat, day: Date, line: Bytes): State
    requires maxBackups >= 1
  {
    var ready := Ensured(s, day);
    if MustRotate(maxSize, ready.size, line) then RotatedDay(ready, maxBackups) else ready
  }

  function Written(s: State, maxSize: int, maxBackups: nat, date: Date, line: Bytes, spill: nat): State
    requires maxBackups >= 1
  {
    if s.closed then s
    else
      var roomy := Roomy(s, maxSize, maxBackups, date, line);
      Spilled(roomy.(buf := roomy.buf + line, size := roomy.size + |line|), spill)
  }

  class JSONLWriter {
    const maxSize: int
    const maxBackups: nat
    var days: map<Date, Files>
    var open: Option<Date>
    var buf: Bytes
    var size: int
    var closed: bool

    ghost function Abstract(): State
      reads this
    {
      State(days, open, buf, size, closed)
    }

    constructor (existing: map<Date, Files>, maxSize: int, maxBackups: nat)
      ensures Abstract() == State(existing, None, [], 0, false) && Abstract().Valid()
      ensures this.maxSize == maxSize && this.maxBackups == maxBackups
    {
      this.maxSize := maxSize;
      this.maxBackups := maxBackups;
      days, open, buf, size, closed := existing, None, [], 0, false;
    }

    method FlushBuffer()
      requires Abstract().Valid()
      modifies this
      ensures Abstract() == Flushed(old(Abstract())) && Abstract().Valid()
    {
      if open.Some? {
        var files := days[open.value];
        days := days[open.value := files[0 := files[0] + buf]];
        buf := [];
      }
    }

    method EnsureFile(date: Date)
      requires Abstract().Valid() && !closed
      modifies this
      ensures Abstract() == Ensured(old(Abstract()), date) && Abstract().Valid()
    {
      if open == Some(date) {
        return;
      }
      FlushBuffer();
      var files := if date in days then days[date] else map[];
      if 0 !in files {
        files := files[0 := []];
      }
      assert Content(Abstract().Day(date), 0) + [] == files[0];
      assert files == Appended(Abstract().Day(date), []);
      days := days[date := files];
      open, buf, size := Some(date), [], |files[0]|;
    }

    method Rotate()
      requires Abstract().Valid() && open.Some? && maxBackups >= 1 && !closed
      modifies this
      ensures Abstract() == RotatedDay(old(Abstract()), maxBackups) && Abstract().Valid()
    {
      FlushBuffer();
      size := 0;
      var shifted := ShiftBackups(days[open.value], maxBackups);
      days := days[open.value := shifted[0 := []]];
    }

    /** False is the error of a closed writer. */
    method Write(date: Date, line: Bytes, spill: nat) returns (ok: bool)
      requires Abstract().Valid() && maxBackups >= 1
      modifies this
      ensures ok == !old(closed)
      ensures Abstract() == Written(old(Abstract()), maxSize, maxBackups, date, line, spill) && Abstract().Valid()
      ensures ok && maxSize > 0 ==> size <= Max(maxSize, |line|)
    {
      if closed {
        return false;
      }
      EnsureFile(date);
      if maxSize > 0 && size + |line| > maxSize {
        Rotate();
      }
      buf := buf + line;
      size := size + |line|;
      Spill(spill);
      return true;
    }

    /** The buffered writer passes on the first bytes of its buffer. */
    method Spill(count: nat)
      requires open.Some? && open.value in days && 0 in days[open.value]
      modifies this
      ensures Abstract() == Spilled(old(Abstract()), count)
    {
      var k := Min(count, |buf|);
      var files := days[open.value];
      days := days[open.value := files[0 := files[0] + buf[..k]]];
      buf := buf[k..];
    }

    method Close()
      requires Abstract().Valid()
      modifies this
      ensures Abstract() == if old(closed) then old(Abstract()) else Flushed(old(Abstract())).(closed := true)
      ensures Abstract().Valid()
    {
      if closed {
        return;
      }
      closed := true;
      FlushBuffer();
    }
  }

  // ----- What is recorded -----

  lemma FlushKeepsRecorded(s: State, date: Date, maxBackups: nat)
    requires s.Valid()
    ensures Flushed(s).Recorded(date, maxBackups) == s.Recorded(date, maxBackups)
    ensures Flushed(s).Valid()
  {
    if s.open == Some(date) {
      AppendedChain(s.Day(date), maxBackups, s.buf);
      assert Chain(s.Day(date), maxBackups) + s.buf + [] == Chain(s.Day(date), maxBackups) + s.buf;
    }
  }

  lemma EnsureKeepsRecorded(s: State, day: Date, date: Date, maxBackups: nat)
    requires s.Valid() && !s.closed
    ensures Ensured(s, day).Recorded(date, maxBackups) == s.Recorded(date, maxBackups)
    ensures Ensured(s, day).Valid()
  {
    if s.open != Some(day) {
      FlushKeepsRecorded(s, date, maxBackups);
      AppendedChain(Flushed(s).Day(day), maxBackups, []);
      assert Chain(Flushed(s).Day(day), maxBackups) + [] == Chain(Flushed(s).Day(day), maxBackups);
    }
  }

  /** What a rotation of the open day drops. */
  function RotationDrops(s: State, maxBackups: nat): Bytes
    requires s.open.Some? && maxBackups >= 1
  {
    Dropped(Flushed(s).Day(s.open.value), maxBackups)
  }

  lemma RotationKeepsTheRest(s: State, date: Date, maxBackups: nat)
    requires s.Valid() && s.open.Some? && !s.closed && maxBackups >= 1
    ensures RotatedDay(s, maxBackups).Valid()
    ensures s.open != Some(date) ==>
              RotatedDay(s, maxBackups).Recorded(date, maxBackups) == s.Recorded(date, maxBackups)
    ensures s.open == Some(date) ==>
              RotationDrops(s, maxBackups)
                + RotatedDay(s, maxBackups).Recorded(date, maxBackups) == s.Recorded(date, maxBackups)
  {
    FlushKeepsRecorded(s, date, maxBackups);
    if s.open == Some(date) {
      var files := Flushed(s).Day(date);
      ShiftKeepsTheRest(files, maxBackups);
      assert Chain(files, maxBackups) + [] == Chain(files, maxBackups);
      assert Chain(Rotated(files, maxBackups), maxBackups) + [] == Chain(Rotated(files, maxBackups), maxBackups);
    }
  }

  lemma SpillKeepsRecorded(s: State, count: nat, date: Date, maxBackups: nat)
    requires s.Valid() && s.open.Some? && !s.closed
    ensures Spilled(s, count).Recorded(date, maxBackups) == s.Recorded(date, maxBackups) && Spilled(s, count).Valid()
  {
    var k := Min(count, |s.buf|);
    if s.open == Some(date) {
      AppendedChain(s.Day(date), maxBackups, s.buf[..k]);
      assert s.buf == s.buf[..k] + s.buf[k..];
      Associates(Chain(s.Day(date), maxBackups), s.buf[..k], s.buf[k..]);
    }
  }

  lemma LineIsAdded(s: State, line: Bytes, spill: nat, date: Date, maxBackups: nat)
    requires s.Valid() && s.open.Some? && !s.closed
    ensures var s' := Spilled(s.(buf := s.buf + line, size := s.size + |line|), spill);
            && s'.Valid() && !s'.closed
            && s'.Recorded(date, maxBackups) == s.Recorded(date, maxBackups) + if s.open == Some(date) then line else []
  {
    var filled := s.(buf := s.buf + line, size := s.size + |line|);
    SpillKeepsRecorded(filled, spill, date, maxBackups);
    Associates(Chain(s.Day(date), maxBackups), s.buf, line);
    assert s.Recorded(date, maxBackups) + [] == s.Recorded(date, maxBackups);
  }

  /** What a write to a day drops: nothing, or the oldest file of that day when the line does not fit. */
  function WriteDrops(s: State, maxSize: int, maxBackups: nat, day: Date, line: Bytes): Bytes
    requires maxBackups >= 1
  {
    var ready := Ensured(s, day);
    if MustRotate(maxSize, ready.size, line) then RotationDrops(ready, maxBackups) else []
  }

  lemma RoomIsMade(s: State, maxSize: int, maxBackups: nat, day: Date, line: Bytes, date: Date)
    requires s.Valid() && !s.closed && maxBackups >= 1
    ensures var roomy := Roomy(s, maxSize, maxBackups, day, line);
            && roomy.Valid() && !roomy.closed && roomy.open == Some(day)
            && (maxSize > 0 ==> roomy.size + |line| <= Max(maxSize, |line|))
            && (date != day ==> roomy.Recorded(date, maxBackups) == s.Recorded(date, maxBackups))
            && (date == day ==>
                  WriteDrops(s, maxSize, maxBackups, day, line)
                    + roomy.Recorded(date, maxBackups) == s.Recorded(date, maxBackups))
  {
    var ready := Ensured(s, day);
    EnsureKeepsRecorded(s, day, date, maxBackups);
    if MustRotate(maxSize, ready.size, line) {
      RotationKeepsTheRest(ready, date, maxBackups);
    } else {
      assert [] + ready.Recorded(date, maxBackups) == ready.Recorded(date, maxBackups);
    }
  }

  /** The line just buffered is whole at the end of the current file and the buffer, whatever part has spilled. */
  lemma LineIsWhole(s: State, line: Bytes, spill: nat)
    requires s.Valid() && s.open.Some?
    ensures var s' := Spilled(s.(buf := s.buf + line, size := s.size + |line|), spill);
            IsSuffix(line, Content(s'.Day(s.open.value), 0) + s'.buf)
  {
    var filled, current := s.buf + line, Content(s.Day(s.open.value), 0);
    var k := Min(spill, |filled|);
    assert filled == filled[..k] + filled[k..];
    Associates(current, filled[..k], filled[k..]);
    assert (current + filled)[|current| + |s.buf|..] == line;
  }

  /**
   One write to a day: that day's record gets the line at the end and loses exactly the bytes of the
   oldest file that a rotation drops, if the line did not fit; the line is not split between two files;
   the record of every other day is what it was, also when this write closed that day's file.
   */
  lemma WriteRecordsTheLine(s: State, maxSize: int, maxBackups: nat, day: Date, line: Bytes, spill: nat, date: Date)
    requires s.Valid() && !s.closed && maxBackups >= 1
    ensures var s' := Written(s, maxSize, maxBackups, day, line, spill);
            && s'.Valid() && !s'.closed
            && (date != day ==> s'.Recorded(date, maxBackups) == s.Recorded(date, maxBackups))
            && (date == day ==>
                  WriteDrops(s, maxSize, maxBackups, day, line) + s'.Recorded(date, maxBackups) ==
                  s.Recorded(date, maxBackups) + line)
            && s'.open == Some(day) && IsSuffix(line, Content(s'.Day(day), 0) + s'.buf)
            && (maxSize > 0 ==> s'.size <= Max(maxSize, |line|))
  {
    var roomy := Roomy(s, maxSize, maxBackups, day, line);
    RoomIsMade(s, maxSize, maxBackups, day, line, date);
    LineIsAdded(roomy, line, spill, date, maxBackups);
    LineIsWhole(roomy, line, spill);
    assert roomy.Recorded(date, maxBackups) + [] == roomy.Recorded(date, maxBackups);
    Associates(WriteDrops(s, maxSize, maxBackups, day, line), roomy.Recorded(date, maxBackups), line);
  }

  // ----- Over whole lives of a writer -----

  datatype Op = Write(date: Date, line: Bytes, spill: nat) | Flush | Close

  function Done(s: State, maxSize: int, maxBackups: nat, op: Op): State
    requires maxBackups >= 1
  {
    match op
    case Write(date, line, spill) => Written(s, maxSize, maxBackups, date, line, spill)
    case Flush => Flushed(s)
    case Close => if s.closed then s else Flushed(s).(closed := true)
  }

  function AfterOps(s: State, maxSize: int, maxBackups: nat, ops: seq<Op>): State
    requires maxBackups >= 1
  {
    if ops == [] then s
    else Done(AfterOps(s, maxSize, maxBackups, ops[..|ops| - 1]), maxSize, maxBackups, ops[|ops| - 1])
  }

  /** The lines accepted for a day: those written before the first Close. */
  function Accepted(ops: seq<Op>, date: Date): Bytes
  {
    if ops == [] then []
    else
      var init, op := ops[..|ops| - 1], ops[|ops| - 1];
      Accepted(init, date) + if op.Write? && op.date == date && Close !in init then op.line else []
  }

  /**
   For every day, whatever its directory held, in whatever order days come and go, and however the
   buffer empties itself: files and buffer together hold a suffix of what was there at first followed
   by the lines accepted for that day.
   */
  lemma {:induction false} EveryDayHoldsASuffix(days: map<Date, Files>, maxSize: int, maxBackups: nat,
        ops: seq<Op>, date: Date)
    requires maxBackups >= 1
    ensures var start := State(days, None, [], 0, false);
            var s := AfterOps(start, maxSize, maxBackups, ops);
            && s.Valid() && (s.closed <==> Close in ops)
            && IsSuffix(s.Recorded(date, maxBackups), start.Recorded(date, maxBackups) + Accepted(ops, date))
  {
    var start := State(days, None, [], 0, false);
    if ops == [] {
      assert start.Recorded(date, maxBackups) + [] == start.Recorded(date, maxBackups);
    } else {
      var init, op := ops[..|ops| - 1], ops[|ops| - 1];
      EveryDayHoldsASuffix(days, maxSize, maxBackups, init, date);
      var before := AfterOps(start, maxSize, maxBackups, init);
      assert ops == init + [op];
      var whole := start.Recorded(date, maxBackups) + Accepted(init, date);
      OneOpHoldsASuffix(before, maxSize, maxBackups, op, date, whole);
      Associates(start.Recorded(date, maxBackups), Accepted(init, date),
                 if op.Write? && op.date == date && Close !in init then op.line else []);
    }
  }

  lemma OneOpHoldsASuffix(s: State, maxSize: int, maxBackups: nat, op: Op, date: Date, whole: Bytes)
    requires maxBackups >= 1 && s.Valid() && IsSuffix(s.Recorded(date, maxBackups), whole)
    ensures var s' := Done(s, maxSize, maxBackups, op);
            var added := if op.Write? && op.date == date && !s.closed then op.line else [];
            && s'.Valid() && (s'.closed <==> s.closed || op == Close)
            && IsSuffix(s'.Recorded(date, maxBackups), whole + added)
  {
    assert whole + [] == whole;
    if op.Write? && !s.closed {
      WriteRecordsTheLine(s, maxSize, maxBackups, op.date, op.line, op.spill, date);
      var s' := Written(s, maxSize, maxBackups, op.date, op.line, op.spill);
      if op.date == date {
        var dropped := WriteDrops(s, maxSize, maxBackups, op.date, op.line);
        SuffixAfterWrite(s.Recorded(date, maxBackups), whole, dropped, s'.Recorded(date, maxBackups), op.line);
      }
    } else {
      FlushKeepsRecorded(s, date, maxBackups);
    }
  }

  // ----- What cannot be lost -----

  predicate RotatesFor(s: State, maxSize: int, op: Op, date: Date)
  {
    op.Write? && op.date == date && !s.closed && MustRotate(maxSize, Ensured(s, date).size, op.line)
  }

  function Rotations(s: State, maxSize: int, maxBackups: nat, ops: seq<Op>, date: Date): nat
    requires maxBackups >= 1
  {
    if ops == [] then 0
    else
      var init := ops[..|ops| - 1];
      Rotations(s, maxSize, maxBackups, init, date)
      + if RotatesFor(AfterOps(s, maxSize, maxBackups, init), maxSize, ops[|ops| - 1], date) then 1 else 0
  }

  function LineFor(s: State, op: Op, date: Date): Bytes
  {
    if op.Write? && op.date == date && !s.closed then op.line else []
  }

  /** What a day starts with: its current file and what is buffered for it. */
  function Opening(s: State, date: Date): Bytes
  {
    Content(s.Day(date), 0) + if s.open == Some(date) then s.buf else []
  }

  /** What has gone to a day since the rotation of that day before its last r. */
  function Recent(s: State, maxSize: int, maxBackups: nat, ops: seq<Op>, date: Date, r: nat): Bytes
    requires maxBackups >= 1
  {
    if ops == [] then Opening(s, date)
    else
      var init, op := ops[..|ops| - 1], ops[|ops| - 1];
      var before := AfterOps(s, maxSize, maxBackups, init);
      if !RotatesFor(before, maxSize, op, date) then
        Recent(s, maxSize, maxBackups, init, date, r) + LineFor(before, op, date)
      else if r == 0 then op.line
      else Recent(s, maxSize, maxBackups, init, date, r - 1) + op.line
  }

  lemma RotatedDayKeepsRecent(s: State, maxBackups: nat, r: nat)
    requires s.Valid() && s.open.Some? && !s.closed && 1 <= r <= maxBackups
    ensures IsSuffix(s.Recorded(s.open.value, r - 1), RotatedDay(s, maxBackups).Recorded(s.open.value, r))
  {
    var date := s.open.value;
    FlushKeepsRecorded(s, date, r - 1);
    var files := Flushed(s).Day(date);
    RotationKeepsTheNewest(files, maxBackups, r);
    assert Chain(files, r - 1) + [] == Chain(files, r - 1);
    assert Chain(Rotated(files, maxBackups), r) + [] == Chain(Rotated(files, maxBackups), r);
  }

  lemma RoomyKeepsRecent(s: State, maxSize: int, maxBackups: nat, day: Date, line: Bytes, recent: Bytes, r: nat)
    requires s.Valid() && !s.closed && 1 <= maxBackups && r <= maxBackups
    requires MustRotate(maxSize, Ensured(s, day).size, line) && r > 0 ==> IsSuffix(recent, s.Recorded(day, r - 1))
    requires !MustRotate(maxSize, Ensured(s, day).size, line) ==> IsSuffix(recent, s.Recorded(day, r))
    ensures var kept := if MustRotate(maxSize, Ensured(s, day).size, line) && r == 0 then [] else recent;
            IsSuffix(kept, Roomy(s, maxSize, maxBackups, day, line).Recorded(day, r))
  {
    var ready := Ensured(s, day);
    EnsureKeepsRecorded(s, day, day, r);
    if MustRotate(maxSize, ready.size, line) && r > 0 {
      RotatedRoomKeepsRecent(s, maxBackups, day, recent, r);
    }
  }

  lemma RotatedRoomKeepsRecent(s: State, maxBackups: nat, day: Date, recent: Bytes, r: nat)
    requires s.Valid() && !s.closed && 1 <= r <= maxBackups && IsSuffix(recent, s.Recorded(day, r - 1))
    ensures IsSuffix(recent, RotatedDay(Ensured(s, day), maxBackups).Recorded(day, r))
  {
    var ready := Ensured(s, day);
    EnsureKeepsRecorded(s, day, day, r - 1);
    RotatedDayKeepsRecent(ready, maxBackups, r);
    SuffixOfSuffix(recent, ready.Recorded(day, r - 1), RotatedDay(ready, maxBackups).Recorded(day, r));
  }

  lemma OneOpKeepsRecent(s: State, maxSize: int, maxBackups: nat, op: Op, date: Date, recent: Bytes, r: nat)
    requires s.Valid() && 1 <= maxBackups && r <= maxBackups
    requires RotatesFor(s, maxSize, op, date) && r > 0 ==> IsSuffix(recent, s.Recorded(date, r - 1))
    requires !RotatesFor(s, maxSize, op, date) ==> IsSuffix(recent, s.Recorded(date, r))
    ensures var kept := if RotatesFor(s, maxSize, op, date) && r == 0 then op.line else recent + LineFor(s, op, date);
            IsSuffix(kept, Done(s, maxSize, maxBackups, op).Recorded(date, r))
  {
    assert recent + [] == recent;
    if op.Write? && !s.closed {
      if op.date == date {
        WriteKeepsRecent(s, maxSize, maxBackups, date, op.line, op.spill, recent, r);
      } else {
        OtherDaysStay(s, maxSize, maxBackups, op.date, op.line, op.spill, date, r);
      }
    } else {
      FlushKeepsRecorded(s, date, r);
    }
  }

  lemma WriteKeepsRecent(s: State, maxSize: int, maxBackups: nat, day: Date, line: Bytes, spill: nat,
        recent: Bytes, r: nat)
    requires s.Valid() && !s.closed && 1 <= maxBackups && r <= maxBackups
    requires MustRotate(maxSize, Ensured(s, day).size, line) && r > 0 ==> IsSuffix(recent, s.Recorded(day, r - 1))
    requires !MustRotate(maxSize, Ensured(s, day).size, line) ==> IsSuffix(recent, s.Recorded(day, r))
    ensures var kept := if MustRotate(maxSize, Ensured(s, day).size, line) && r == 0 then [] else recent;
            IsSuffix(kept + line, Written(s, maxSize, maxBackups, day, line, spill).Recorded(day, r))
    ensures [] + line == line
  {
    var roomy := Roomy(s, maxSize, maxBackups, day, line);
    RoomIsMade(s, maxSize, maxBackups, day, line, day);
    LineIsAdded(roomy, line, spill, day, r);
    RoomyKeepsRecent(s, maxSize, maxBackups, day, line, recent, r);
    var kept := if MustRotate(maxSize, Ensured(s, day).size, line) && r == 0 then [] else recent;
    SuffixThen(kept, roomy.Recorded(day, r), line);
  }

  lemma OtherDaysStay(s: State, maxSize: int, maxBackups: nat, day: Date, line: Bytes, spill: nat, date: Date, r: nat)
    requires s.Valid() && !s.closed && maxBackups >= 1 && date != day
    ensures Written(s, maxSize, maxBackups, day, line, spill).Recorded(date, r) == s.Recorded(date, r)
  {
    var roomy := Roomy(s, maxSize, maxBackups, day, line);
    EnsureKeepsRecorded(s, day, date, r);
    RoomIsMade(s, maxSize, maxBackups, day, line, day);
    LineIsAdded(roomy, line, spill, date, r);
    assert roomy.Recorded(date, r) + [] == roomy.Recorded(date, r);
  }

  lemma {:induction false} EveryStateIsValid(s: State, maxSize: int, maxBackups: nat, ops: seq<Op>)
    requires s.Valid() && maxBackups >= 1
    ensures AfterOps(s, maxSize, maxBackups, ops).Valid()
  {
    if ops != [] {
      var init, op := ops[..|ops| - 1], ops[|ops| - 1];
      EveryStateIsValid(s, maxSize, maxBackups, init);
      var before := AfterOps(s, maxSize, maxBackups, init);
      OneOpHoldsASuffix(before, maxSize, maxBackups, op, "", before.Recorded("", maxBackups));
    }
  }

  /**
   Every line accepted for a day since the rotation of that day before its last r is still there, for
   every r up to maxBackups.
   */
  lemma {:induction false} RecentLinesSurvive(s: State, maxSize: int, maxBackups: nat, ops: seq<Op>, date: Date, r: nat)
    requires s.Valid() && 1 <= maxBackups && r <= maxBackups
    ensures IsSuffix(Recent(s, maxSize, maxBackups, ops, date, r),
                     AfterOps(s, maxSize, maxBackups, ops).Recorded(date, r))
  {
    if ops == [] {
      CurrentIsLast(s.Day(date), r);
      SuffixThen(Content(s.Day(date), 0), Chain(s.Day(date), r), if s.open == Some(date) then s.buf else []);
    } else {
      var init, op := ops[..|ops| - 1], ops[|ops| - 1];
      var before := AfterOps(s, maxSize, maxBackups, init);
      var back: nat := if RotatesFor(before, maxSize, op, date) && r > 0 then r - 1 else r;
      EveryStateIsValid(s, maxSize, maxBackups, init);
      RecentLinesSurvive(s, maxSize, maxBackups, init, date, back);
      OneOpKeepsRecent(before, maxSize, maxBackups, op, date, Recent(s, maxSize, maxBackups, init, date, back), r);
    }
  }

  lemma ClosingStep(s: State, maxSize: int, maxBackups: nat, op: Op)
    requires maxBackups >= 1
    ensures Done(s, maxSize, maxBackups, op).closed <==> s.closed || op == Close
  {
  }

  lemma {:induction false} ClosedOnceClosed(s: State, maxSize: int, maxBackups: nat, ops: seq<Op>)
    requires !s.closed && maxBackups >= 1
    ensures AfterOps(s, maxSize, maxBackups, ops).closed <==> Close in ops
  {
    if ops != [] {
      var init, op := ops[..|ops| - 1], ops[|ops| - 1];
      assert ops == init + [op];
      ClosedOnceClosed(s, maxSize, maxBackups, init);
      ClosingStep(AfterOps(s, maxSize, maxBackups, init), maxSize, maxBackups, op);
    }
  }

  lemma {:induction false} FewRotationsLoseNoLine(s: State, maxSize: int, maxBackups: nat, ops: seq<Op>,
        date: Date, r: nat)
    requires !s.closed && maxBackups >= 1 && Rotations(s, maxSize, maxBackups, ops, date) <= r
    ensures Recent(s, maxSize, maxBackups, ops, date, r) == Opening(s, date) + Accepted(ops, date)
  {
    if ops == [] {
      assert Opening(s, date) + [] == Opening(s, date);
    } else {
      var init, op := ops[..|ops| - 1], ops[|ops| - 1];
      var before := AfterOps(s, maxSize, maxBackups, init);
      var rotates := RotatesFor(before, maxSize, op, date);
      ClosedOnceClosed(s, maxSize, maxBackups, init);
      FewRotationsLoseNoLine(s, maxSize, maxBackups, init, date, if rotates then r - 1 else r);
      Associates(Opening(s, date), Accepted(init, date), LineFor(before, op, date));
    }
  }

  /** Up to maxBackups rotations of a day lose no line accepted for it. */
  lemma NoLineIsLostAtFirst(s: State, maxSize: int, maxBackups: nat, ops: seq<Op>, date: Date)
    requires s.Valid() && !s.closed && maxBackups >= 1 && Rotations(s, maxSize, maxBackups, ops, date) <= maxBackups
    ensures IsSuffix(Opening(s, date) + Accepted(ops, date),
                     AfterOps(s, maxSize, maxBackups, ops).Recorded(date, maxBackups))
  {
    RecentLinesSurvive(s, maxSize, maxBackups, ops, date, maxBackups);
    FewRotationsLoseNoLine(s, maxSize, maxBackups, ops, date, maxBackups);
  }

  // ----- One rotating writer per day -----

  /** The files of a day as they would be if it were opened and the buffer flushed. */
  function Settled(s: State, date: Date): Files
  {
    Appended(s.Day(date), if s.open == Some(date) then s.buf else [])
  }

  lemma SettledFiles(s: State, date: Date)
    ensures Settled(s, date)[0] == Opening(s, date)
    ensures forall k: nat | k > 0 :: Get(Settled(s, date), k) == Get(s.Day(date), k)
  {
  }

  lemma FlushSettles(s: State, date: Date)
    ensures Settled(Flushed(s), date) == Settled(s, date)
  {
    if s.open == Some(date) {
      assert Content(s.Day(date), 0) + s.buf + [] == Content(s.Day(date), 0) + s.buf;
    }
  }

  lemma EnsureSettles(s: State, day: Date, date: Date)
    ensures Settled(Ensured(s, day), date) == Settled(s, date)
  {
    if s.open != Some(day) {
      FlushSettles(s, date);
      if date == day {
        var current := Content(Flushed(s).Day(day), 0);
        assert current + [] + [] == current + [];
      }
    }
  }

  lemma RotationSettles(s: State, maxBackups: nat, date: Date)
    requires s.open.Some? && maxBackups >= 1
    ensures Settled(RotatedDay(s, maxBackups), date) ==
            if s.open == Some(date) then Rotated(Settled(s, date), maxBackups) else Settled(s, date)
  {
    if s.open == Some(date) {
      assert Content(Rotated(Settled(s, date), maxBackups), 0) + [] == [];
    }
  }

  lemma LineSettles(s: State, line: Bytes, spill: nat, date: Date)
    requires s.open.Some?
    ensures Settled(Spilled(s.(buf := s.buf + line, size := s.size + |line|), spill), date) ==
            if s.open == Some(date) then Appended(Settled(s, date), line) else Settled(s, date)
  {
    if s.open == Some(date) {
      var current, filled := Content(s.Day(date), 0), s.buf + line;
      var k := Min(spill, |filled|);
      assert filled == filled[..k] + filled[k..];
      Associates(current, filled[..k], filled[k..]);
      Associates(current, s.buf, line);
    }
  }

  lemma EnsuredSize(s: State, day: Date)
    requires s.Valid() && !s.closed
    ensures Ensured(s, day).size == |Settled(s, day)[0]|
  {
    EnsureSettles(s, day, day);
  }

  /** A write to a day is, whatever the buffer does, a plain write to the files of that day, and to no others. */
  lemma WriteIsPlainWrite(s: State, maxSize: int, maxBackups: nat, day: Date, line: Bytes, spill: nat, date: Date)
    requires s.Valid() && !s.closed && maxBackups >= 1
    ensures var files := Settled(s, date);
            Settled(Written(s, maxSize, maxBackups, day, line, spill), date) ==
            if date == day then AfterWrite(files, |files[0]|, maxSize, maxBackups, line) else files
  {
    var ready := Ensured(s, day);
    EnsureSettles(s, day, date);
    EnsuredSize(s, day);
    if MustRotate(maxSize, ready.size, line) {
      RotationSettles(ready, maxBackups, date);
    }
    LineSettles(Roomy(s, maxSize, maxBackups, day, line), line, spill, date);
  }

  /** The lines accepted for a day, one by one. */
  function LinesOf(ops: seq<Op>, date: Date): seq<Bytes>
  {
    if ops == [] then []
    else
      var init, op := ops[..|ops| - 1], ops[|ops| - 1];
      LinesOf(init, date) + if op.Write? && op.date == date && Close !in init then [op.line] else []
  }

  lemma {:induction false} LinesMakeUpAccepted(ops: seq<Op>, date: Date)
    ensures Concat(LinesOf(ops, date)) == Accepted(ops, date)
  {
    if ops != [] {
      var init, op := ops[..|ops| - 1], ops[|ops| - 1];
      LinesMakeUpAccepted(init, date);
      if op.Write? && op.date == date && Close !in init {
        assert (LinesOf(init, date) + [op.line])[..|LinesOf(init, date)|] == LinesOf(init, date);
      } else {
        assert LinesOf(init, date) + [] == LinesOf(init, date) && Accepted(init, date) + [] == Accepted(init, date);
      }
    }
  }

  /**
   The event writer is one rotating writer per day: over any operations, with days coming and going and the
   buffer emptying itself at will, the files of each day are, the buffer included, what a plain rotating
   writer makes of the lines accepted for that day.
   */
  lemma {:induction false} EachDayIsARotatingWriter(s: State, maxSize: int, maxBackups: nat, ops: seq<Op>, date: Date)
    requires s.Valid() && !s.closed && maxBackups >= 1
    ensures var start := Writer(Settled(s, date), |Settled(s, date)[0]|);
            Settled(AfterOps(s, maxSize, maxBackups, ops), date) ==
            AfterWrites(start, maxSize, maxBackups, LinesOf(ops, date)).files
  {
    if ops != [] {
      var start := Writer(Settled(s, date), |Settled(s, date)[0]|);
      var init, op := ops[..|ops| - 1], ops[|ops| - 1];
      var before := AfterOps(s, maxSize, maxBackups, init);
      var lines := LinesOf(init, date);
      EachDayIsARotatingWriter(s, maxSize, maxBackups, init, date);
      EveryStateIsValid(s, maxSize, maxBackups, init);
      ClosedOnceClosed(s, maxSize, maxBackups, init);
      TrackedSizeIsTrue(start, maxSize, maxBackups, lines);
      OpSettles(before, maxSize, maxBackups, op, date);
      if op.Write? && op.date == date && Close !in init {
        assert (lines + [op.line])[..|lines|] == lines;
      } else {
        assert lines + [] == lines;
      }
    }
  }

  lemma OpSettles(s: State, maxSize: int, maxBackups: nat, op: Op, date: Date)
    requires s.Valid() && maxBackups >= 1
    ensures var files := Settled(s, date);
            Settled(Done(s, maxSize, maxBackups, op), date) ==
            if op.Write? && op.date == date && !s.closed
            then AfterWrite(files, |files[0]|, maxSize, maxBackups, op.line) else files
  {
    if op.Write? && !s.closed {
      WriteIsPlainWrite(s, maxSize, maxBackups, op.date, op.line, op.spill, date);
    } else {
      FlushSettles(s, date);
    }
  }

  /**
   So lines of a day that fit together all go to its current file and its buffer, whatever is written to
   other days in between, and no backup of the day changes.
   */
  lemma SmallLinesShareAFile(s: State, maxSize: int, maxBackups: nat, ops: seq<Op>, date: Date)
    requires s.Valid() && !s.closed && maxBackups >= 1
    requires Fits(maxSize, Opening(s, date), Accepted(ops, date))
    ensures var s' := AfterOps(s, maxSize, maxBackups, ops);
            && Opening(s', date) == Opening(s, date) + Accepted(ops, date)
            && forall k: nat | k > 0 :: Get(s'.Day(date), k) == Get(s.Day(date), k)
  {
    var s' := AfterOps(s, maxSize, maxBackups, ops);
    LinesMakeUpAccepted(ops, date);
    EachDayIsARotatingWriter(s, maxSize, maxBackups, ops, date);
    SettledFiles(s, date);
    SmallWritesShareAFile(Settled(s, date), maxSize, maxBackups, LinesOf(ops, date));
    SettledFiles(s', date);
    forall k: nat | k > 0
      ensures Get(s'.Day(date), k) == Get(s.Day(date), k)
    {
      assert Get(Settled(s', date), k) == Get(Settled(s, date), k);
    }
  }

  lemma OnlyTheCurrentFile(s: State, date: Date)
    requires forall k | k in s.Day(date) :: k == 0
    ensures Settled(s, date) == map[0 := Opening(s, date)]
  {
  }

  /** And no file of a day that had no backups is rotated away early. */
  lemma EveryDayIsWellFilled(s: State, maxSize: int, maxBackups: nat, ops: seq<Op>, date: Date)
    requires s.Valid() && !s.closed && maxBackups >= 1 && maxSize > 0
    requires forall k | k in s.Day(date) :: k == 0
    ensures WellFilled(Settled(AfterOps(s, maxSize, maxBackups, ops), date), maxSize, maxBackups)
  {
    OnlyTheCurrentFile(s, date);
    EachDayIsARotatingWriter(s, maxSize, maxBackups, ops, date);
    FilesAreWellFilled(Opening(s, date), maxSize, maxBackups, LinesOf(ops, date));
  }
}
