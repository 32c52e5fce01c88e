/** `RwLock`: the critical sections under the lock's mutex, each run to the point where it waits or returns. */
module RwLock {
  import opened Platform
  import opened RwLockModel

  class RwLock {
    var readCnt: int
    var writeCnt: int
    var writeFlag: bool
    ghost var s: State  // the fields, and where the threads stand

    ghost predicate Valid()
      reads this
    {
      Mirrors() && Inv(s)
    }

    ghost predicate Mirrors()
      reads this
    {
      readCnt == s.readCnt && writeCnt == s.writeCnt && writeFlag == s.writeFlag
    }

    constructor ()
      ensures Valid() && s == INITIAL
    {
      readCnt, writeCnt, writeFlag := 0, 0, false;
      s := INITIAL;
    }

    /** A wait of `LockRead` evaluates its predicate; behind it the reader counts itself. */
    method EnterRead(ghost t: Thread) returns (entered: bool)
      requires Mirrors() && t !in s.reading
      modifies this
      ensures Mirrors() && s == ReadOrSleep(old(s), t)
      ensures entered <==> t in s.reading
      ensures entered <==> old(writeCnt) == 0
      ensures readCnt == old(readCnt) + (if entered then 1 else 0) && writeCnt == old(writeCnt) && writeFlag == old(writeFlag)
    {
      entered := writeCnt == 0;
      if entered {
        readCnt := readCnt + 1;
      }
      s := ReadOrSleep(s, t);
    }

    /** A wait of `LockWrite` evaluates its predicate; behind it the writer raises the flag. */
    method EnterWrite(ghost t: Thread) returns (entered: bool)
      requires Mirrors() && t !in s.writing
      modifies this
      ensures Mirrors() && s == WriteOrSleep(old(s), t)
      ensures entered <==> t in s.writing
      ensures entered <==> old(readCnt) == 0 && !old(writeFlag)
      ensures writeFlag == (old(writeFlag) || entered) && readCnt == old(readCnt) && writeCnt == old(writeCnt)
    {
      entered := readCnt == 0 && !writeFlag;
      if entered {
        writeFlag := true;
      }
      s := WriteOrSleep(s, t);
    }

    /** `LockWrite` announces the writer before its first wait. */
    method AnnounceWrite(ghost t: Thread) returns (entered: bool)
      requires Mirrors() && t !in s.Busy()
      modifies this
      ensures Mirrors() && s == Apply(old(s), RwLockModel.LockWrite(t))
      ensures entered <==> t in s.writing
      ensures entered <==> old(readCnt) == 0 && !old(writeFlag)
      ensures writeFlag == (old(writeFlag) || entered) && readCnt == old(readCnt) && writeCnt == old(writeCnt) + 1
    {
      writeCnt := writeCnt + 1;
      s := s.(writeCnt := writeCnt);
      entered := EnterWrite(t);
    }

    /** A notified reader stands at its wait again. */
    method ReturnToRead(ghost t: Thread) returns (entered: bool)
      requires Mirrors() && t in s.readNotified && t !in s.reading
      modifies this
      ensures Mirrors() && s == Apply(old(s), WakeRead(t))
      ensures entered <==> t in s.reading
      ensures entered <==> old(writeCnt) == 0
      ensures readCnt == old(readCnt) + (if entered then 1 else 0) && writeCnt == old(writeCnt) && writeFlag == old(writeFlag)
    {
      s := s.(readNotified := s.readNotified - {t});
      entered := EnterRead(t);
    }

    /** A notified writer stands at its wait again. */
    method ReturnToWrite(ghost t: Thread) returns (entered: bool)
      requires Mirrors() && t in s.writeNotified && t !in s.writing
      modifies this
      ensures Mirrors() && s == Apply(old(s), WakeWrite(t))
      ensures entered <==> t in s.writing
      ensures entered <==> old(readCnt) == 0 && !old(writeFlag)
      ensures writeFlag == (old(writeFlag) || entered) && readCnt == old(readCnt) && writeCnt == old(writeCnt)
    {
      s := s.(writeNotified := s.writeNotified - {t});
      entered := EnterWrite(t);
    }

    /** `LockRead` up to its first wait. */
    method LockRead(ghost t: Thread) returns (entered: bool)
      requires Valid() && t !in s.Busy()
      modifies this
      ensures Valid() && s == Apply(old(s), RwLockModel.LockRead(t))
      ensures entered <==> t in s.reading
      ensures entered <==> old(writeCnt) == 0
      ensures readCnt == old(readCnt) + (if entered then 1 else 0) && writeCnt == old(writeCnt) && writeFlag == old(writeFlag)
    {
      ghost var before := s;
      entered := EnterRead(t);
      StepKeepsInv(before, RwLockModel.LockRead(t));
    }

    /** A reader that was notified evaluates its wait predicate again. */
    method ResumeRead(ghost t: Thread) returns (entered: bool)
      requires Valid() && t in s.readNotified
      modifies this
      ensures Valid() && s == Apply(old(s), WakeRead(t))
      ensures entered <==> t in s.reading
      ensures entered <==> old(writeCnt) == 0
      ensures readCnt == old(readCnt) + (if entered then 1 else 0) && writeCnt == old(writeCnt) && writeFlag == old(writeFlag)
    {
      ghost var before := s;
      entered := ReturnToRead(t);
      StepKeepsInv(before, WakeRead(t));
    }

    /** `LockWrite` up to its first wait. */
    method LockWrite(ghost t: Thread) returns (entered: bool)
      requires Valid() && t !in s.Busy()
      modifies this
      ensures Valid() && s == Apply(old(s), RwLockModel.LockWrite(t))
      ensures entered <==> t in s.writing
      ensures entered <==> old(readCnt) == 0 && !old(writeFlag)
      ensures writeFlag == (old(writeFlag) || entered) && readCnt == old(readCnt) && writeCnt == old(writeCnt) + 1
    {
      ghost var before := s;
      entered := AnnounceWrite(t);
      StepKeepsInv(before, RwLockModel.LockWrite(t));
    }

    /** A writer that was notified evaluates its wait predicate again. */
    method ResumeWrite(ghost t: Thread) returns (entered: bool)
      requires Valid() && t in s.writeNotified
      modifies this
      ensures Valid() && s == Apply(old(s), WakeWrite(t))
      ensures entered <==> t in s.writing
      ensures entered <==> old(readCnt) == 0 && !old(writeFlag)
      ensures writeFlag == (old(writeFlag) || entered) && readCnt == old(readCnt) && writeCnt == old(writeCnt)
    {
      ghost var before := s;
      entered := ReturnToWrite(t);
      StepKeepsInv(before, WakeWrite(t));
    }

    /** The counting of `UnLockRead`; `woken` is the sleeper that `condWrite_.notify_one()` picks. */
    method LeaveRead(ghost t: Thread) returns (ghost woken: Option<Thread>)
      requires Mirrors() && t in s.reading
      modifies this
      ensures Enabled(old(s), UnlockRead(t, woken))
      ensures Mirrors() && s == Apply(old(s), UnlockRead(t, woken))
      ensures readCnt == old(readCnt) - 1 && writeCnt == old(writeCnt) && writeFlag == old(writeFlag)
      ensures woken.Some? <==> readCnt == 0 && writeCnt > 0 && old(s).writeAsleep != {}
    {
      ghost var before := s;
      woken := None;
      readCnt := readCnt - 1;
      if readCnt == 0 && writeCnt > 0 {
        woken := Pick(s, true);
      }
      s := Apply(before, UnlockRead(t, woken));
    }

    method UnLockRead(ghost t: Thread) returns (ghost woken: Option<Thread>)
      requires Valid() && t in s.reading
      modifies this
      ensures Enabled(old(s), UnlockRead(t, woken))
      ensures Valid() && s == Apply(old(s), UnlockRead(t, woken))
      ensures readCnt == old(readCnt) - 1 && writeCnt == old(writeCnt) && writeFlag == old(writeFlag)
      ensures woken.Some? <==> readCnt == 0 && writeCnt > 0 && old(s).writeAsleep != {}
    {
      ghost var before := s;
      woken := LeaveRead(t);
      StepKeepsInv(before, UnlockRead(t, woken));
    }

    /** The counting of `UnLockWrite`; without another writer it calls `condRead_.notify_all()`. */
    method LeaveWrite(ghost t: Thread) returns (ghost woken: Option<Thread>)
      requires Mirrors() && t in s.writing && s.writeCnt >= 1
      modifies this
      ensures Enabled(old(s), UnlockWrite(t, woken))
      ensures Mirrors() && s == Apply(old(s), UnlockWrite(t, woken))
      ensures writeCnt == old(writeCnt) - 1 && !writeFlag && readCnt == old(readCnt)
      ensures woken.Some? <==> writeCnt > 0 && old(s).writeAsleep != {}
      ensures s.readAsleep == if writeCnt == 0 then {} else old(s).readAsleep
    {
      ghost var before := s;
      woken := None;
      writeCnt := writeCnt - 1;
      if writeCnt != 0 {
        woken := Pick(s, true);
      }
      writeFlag := false;
      s := Apply(before, UnlockWrite(t, woken));
    }

    method UnLockWrite(ghost t: Thread) returns (ghost woken: Option<Thread>)
      requires Valid() && t in s.writing
      modifies this
      ensures Enabled(old(s), UnlockWrite(t, woken))
      ensures Valid() && s == Apply(old(s), UnlockWrite(t, woken))
      ensures writeCnt == old(writeCnt) - 1 && !writeFlag && readCnt == old(readCnt)
      ensures woken.Some? <==> writeCnt > 0 && old(s).writeAsleep != {}
      ensures s.readAsleep == if writeCnt == 0 then {} else old(s).readAsleep
    {
      ghost var before := s;
      AnnouncedWriters(s, t);
      woken := LeaveWrite(t);
      StepKeepsInv(before, UnlockWrite(t, woken));
    }
  }

  lemma AnnouncedWriters(s: State, t: Thread)
    requires Inv(s) && t in s.writing
    ensures s.writeCnt >= 1
  {
    assert s.writeCnt >= |s.writing| >= 1;
  }
}
