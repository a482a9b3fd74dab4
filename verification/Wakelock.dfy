/** The counted wakelock: a count of unprocessed events, and a kernel wakelock that is taken for the
    first of them and given back after the last. Whether an open or a write works is an input. */
module Wakelock {
  import opened Integers
  import opened Wrappers

  const UINT_MAX := TWO_32 - 1

  datatype Write = LockWrite | UnlockWrite

  /** isOpen: both descriptors are open; the constructor opens both or none. */
  datatype Lock = Lock(count: nat, held: bool, isOpen: bool)

  /** What a counted call does: its return value is 0 or -1, and write is a successful kernel write. */
  datatype Effect = Effect(next: Lock, ret: int, write: Option<Write>)

  function Acquire(s: Lock, n: nat, writeOk: bool): Effect {
    if n > UINT_MAX - s.count then Effect(s, -1, None)
    else if s.count == 0 && !s.held then
      if s.isOpen && writeOk then Effect(s.(count := n, held := true), 0, Some(LockWrite))
      else Effect(s, -1, None)
    else Effect(s.(count := s.count + n), -1, None)
  }

  function Release(s: Lock, n: nat, writeOk: bool): Effect {
    if n > s.count then Effect(s, -1, None)
    else if s.count == n && s.held then
      if s.isOpen && writeOk then Effect(s.(count := 0, held := false), 0, Some(UnlockWrite))
      else Effect(s.(count := 0), -1, None)
    else Effect(s.(count := s.count - n), -1, None)
  }

  class QshWakelock {
    var mAcqCount: nat
    var mIsHeld: bool
    const mFds: array<int>
    ghost var writes: seq<Write>

    ghost predicate Valid()
      reads this, mFds
    {
      mAcqCount <= UINT_MAX && mFds.Length == 2 && (mFds[0] >= 0 <==> mFds[1] >= 0)
    }

    ghost function State(): Lock
      requires mFds.Length == 2
      reads this, mFds
    {
      Lock(mAcqCount, mIsHeld, mFds[0] >= 0)
    }

    /** fds are the results of the two open calls; after a failure the ones before it are closed. */
    constructor (fds: seq<int>)
      requires |fds| == 2
      ensures Valid() && fresh(mFds) && writes == []
      ensures State() == Lock(0, false, fds[0] >= 0 && fds[1] >= 0)
    {
      mIsHeld := false;
      mAcqCount := 0;
      mFds := new int[2](_ => -1);
      writes := [];
      new;
      for i := 0 to 2
        invariant mFds.Length == 2 && fresh(mFds) && mAcqCount == 0 && !mIsHeld && writes == []
        invariant forall j :: 0 <= j < i ==> mFds[j] == fds[j] >= 0
        invariant forall j :: i <= j < 2 ==> mFds[j] == -1
      {
        if fds[i] < 0 {
          for j := 0 to i
            invariant mFds.Length == 2 && fresh(mFds) && mAcqCount == 0 && !mIsHeld && writes == []
            invariant forall k :: 0 <= k < j ==> mFds[k] == -1
            invariant forall k :: j <= k < i ==> mFds[k] >= 0
            invariant forall k :: i <= k < 2 ==> mFds[k] == -1
          {
            if mFds[j] >= 0 {
              mFds[j] := -1;
            }
          }
          return;
        }
        mFds[i] := fds[i];
      }
    }

    method KernelAcquire(writeOk: bool) returns (ret: int)
      requires Valid()
      modifies this
      ensures Valid() && mAcqCount == old(mAcqCount)
      ensures ret == if mFds[0] >= 0 && writeOk then 0 else -1
      ensures if ret == 0 then mIsHeld && writes == old(writes) + [LockWrite]
              else mIsHeld == old(mIsHeld) && writes == old(writes)
    {
      ret := -1;
      if mFds[0] >= 0 && writeOk {
        mIsHeld := true;
        writes := writes + [LockWrite];
        ret := 0;
      }
    }

    method KernelRelease(writeOk: bool) returns (ret: int)
      requires Valid()
      modifies this
      ensures Valid() && mAcqCount == old(mAcqCount)
      ensures ret == if mFds[1] >= 0 && writeOk then 0 else -1
      ensures if ret == 0 then !mIsHeld && writes == old(writes) + [UnlockWrite]
              else mIsHeld == old(mIsHeld) && writes == old(writes)
    {
      ret := -1;
      if mFds[1] >= 0 && writeOk {
        mIsHeld := false;
        writes := writes + [UnlockWrite];
        ret := 0;
      }
    }

    /** acquire(inCount), under the object's mutex. */
    method AcquireCount(inCount: nat, writeOk: bool) returns (ret: int)
      requires Valid() && inCount <= UINT_MAX
      modifies this
      ensures Valid()
      ensures var e := Acquire(old(State()), inCount, writeOk);
              State() == e.next && ret == e.ret && writes == old(writes) + Written(e)
    {
      ret := -1;
      if inCount > UINT_MAX - mAcqCount {
        return;
      }
      if mAcqCount == 0 && !mIsHeld {
        ret := KernelAcquire(writeOk);
        if ret != 0 {
          return;
        }
      }
      mAcqCount := mAcqCount + inCount;
    }

    method ReleaseCount(inCount: nat, writeOk: bool) returns (ret: int)
      requires Valid() && inCount <= UINT_MAX
      modifies this
      ensures Valid()
      ensures var e := Release(old(State()), inCount, writeOk);
              State() == e.next && ret == e.ret && writes == old(writes) + Written(e)
    {
      ret := -1;
      if inCount > mAcqCount {
        return;
      }
      mAcqCount := mAcqCount - inCount;
      if mAcqCount == 0 && mIsHeld {
        ret := KernelRelease(writeOk);
      }
    }

    /** The destructor: a held lock is given back whatever the count. */
    method Destroy(writeOk: bool)
      requires Valid()
      modifies this, mFds
      ensures var unlocks := old(mIsHeld) && old(mFds[1]) >= 0 && writeOk;
              && writes == (if unlocks then old(writes) + [UnlockWrite] else old(writes))
              && mIsHeld == (old(mIsHeld) && !unlocks)
      ensures mAcqCount == (if old(mIsHeld) then 0 else old(mAcqCount)) && mFds[0] == mFds[1] == -1
    {
      if mIsHeld {
        mAcqCount := 0;
        var _ := KernelRelease(writeOk);
      }
      mFds[0], mFds[1] := -1, -1;
    }
  }

  function Written(e: Effect): seq<Write> {
    if e.write.Some? then [e.write.value] else []
  }

  // ---- all runs ----

  datatype Call = AcquireCall(n: nat, writeOk: bool) | ReleaseCall(n: nat, writeOk: bool)

  function Perform(s: Lock, c: Call): Effect {
    match c
    case AcquireCall(n, ok) => Acquire(s, n, ok)
    case ReleaseCall(n, ok) => Release(s, n, ok)
  }

  /** An acquire counts if the sum fits 32 bits and the kernel lock is held, or is taken now. */
  predicate AcquireCounts(s: Lock, n: nat, writeOk: bool) {
    s.count + n <= 0xffff_ffff && (s.held || s.count > 0 || (s.isOpen && writeOk))
  }

  /** A release counts if that much is outstanding. */
  predicate ReleaseCounts(s: Lock, n: nat) {
    n <= s.count
  }

  /** The state, the sums of the acquires and releases that count, and the kernel writes after some calls. */
  datatype History = History(state: Lock, acquired: nat, released: nat, writes: seq<Write>)

  function Start(isOpen: bool): History {
    History(Lock(0, false, isOpen), 0, 0, [])
  }

  function After(isOpen: bool, calls: seq<Call>): History {
    if calls == [] then Start(isOpen)
    else Then(After(isOpen, calls[..|calls| - 1]), calls[|calls| - 1])
  }

  function Then(h: History, c: Call): History {
    var e := Perform(h.state, c);
    History(e.next,
            h.acquired + (if c.AcquireCall? && AcquireCounts(h.state, c.n, c.writeOk) then c.n else 0),
            h.released + (if c.ReleaseCall? && ReleaseCounts(h.state, c.n) then c.n else 0),
            h.writes + Written(e))
  }

  predicate EndsUnlocked(ws: seq<Write>) {
    ws == [] || ws[|ws| - 1].UnlockWrite?
  }

  /** lock, unlock, lock, ... */
  predicate Alternating(ws: seq<Write>) {
    ws == [] || (Alternating(ws[..|ws| - 1]) && (ws[|ws| - 1].LockWrite? <==> EndsUnlocked(ws[..|ws| - 1])))
  }

  predicate Counted(h: History) {
    && (h.state.count > 0 ==> h.state.held) && (h.state.held ==> h.state.isOpen)
    && h.state.count == h.acquired - h.released && h.state.count <= 0xffff_ffff
  }

  predicate Logged(h: History) {
    Alternating(h.writes) && (h.state.held <==> !EndsUnlocked(h.writes))
  }

  lemma StartState(isOpen: bool)
    ensures Counted(Start(isOpen)) && Logged(Start(isOpen))
  {
  }

  lemma CountedThen(h: History, c: Call)
    requires Counted(h)
    ensures Counted(Then(h, c)) && Then(h, c).state.isOpen == h.state.isOpen
  {
  }

  lemma LoggedThen(h: History, c: Call)
    requires Logged(h)
    ensures Logged(Then(h, c))
  {
    var e := Perform(h.state, c);
    if e.write.Some? {
      assert e.write == Some(if h.state.held then UnlockWrite else LockWrite);
      assert e.next.held == !h.state.held;
      assert Then(h, c).writes[..|h.writes|] == h.writes;
    } else {
      assert h.writes + Written(e) == h.writes && e.next.held == h.state.held;
    }
  }

  /** One call, exactly: what it adds to the count or takes from it, when it writes, and what that does to
      the held flag. */
  lemma CallExactly(s: Lock, c: Call)
    ensures var e := Perform(s, c);
            var locks := c.AcquireCall? && s.count + c.n <= 0xffff_ffff && s.count == 0 && !s.held
                         && s.isOpen && c.writeOk;
            var unlocks := c.ReleaseCall? && c.n == s.count && s.held && s.isOpen && c.writeOk;
            && e.next.count == (if c.AcquireCall? && AcquireCounts(s, c.n, c.writeOk) then s.count + c.n
                                else if c.ReleaseCall? && ReleaseCounts(s, c.n) then s.count - c.n
                                else s.count)
            && e.write == (if locks then Some(LockWrite) else if unlocks then Some(UnlockWrite) else None)
            && e.next.held == (locks || (s.held && !unlocks)) && e.next.isOpen == s.isOpen
            && e.ret == if locks || unlocks then 0 else -1
  {
  }

  /** Two acquires of one and a release of one leave one event outstanding and the lock held. */
  lemma CountsTwice()
    ensures After(true, [AcquireCall(1, true), AcquireCall(1, true), ReleaseCall(1, true)]).state == Lock(1, true, true)
  {
    var calls := [AcquireCall(1, true), AcquireCall(1, true), ReleaseCall(1, true)];
    assert calls[..2][..1][..0] == [] && calls[..2][..1] == [AcquireCall(1, true)];
    assert After(true, calls[..2][..1]).state == Lock(1, true, true);
    assert After(true, calls[..2]).state == Lock(2, true, true);
  }

  /** In every reachable state, whatever opens and writes failed: a positive count means the kernel lock
      is held; the count is the sum of the acquires that count minus that of the releases that count,
      and fits 32 bits; the successful writes alternate, and the lock is held exactly after a lock write. */
  lemma {:induction false} WakelockInvariant(isOpen: bool, calls: seq<Call>)
    ensures var h := After(isOpen, calls); Counted(h) && Logged(h) && h.state.isOpen == isOpen
    decreases |calls|
  {
    hide Then, Counted, Logged;
    if calls == [] {
      StartState(isOpen);
    } else {
      var h := After(isOpen, calls[..|calls| - 1]);
      WakelockInvariant(isOpen, calls[..|calls| - 1]);
      CountedThen(h, calls[|calls| - 1]);
      LoggedThen(h, calls[|calls| - 1]);
    }
  }

  /** A counted call returns 0 exactly when it made a successful kernel write; a call that is accepted
      without one returns -1 like a refused one. */
  lemma ReturnsZeroOnWrite(isOpen: bool, calls: seq<Call>, c: Call)
    ensures var e := Perform(After(isOpen, calls).state, c);
            (e.ret == 0 <==> e.write.Some?) && (e.ret == -1 <==> e.write.None?)
  {
  }

  // ---- held exactly while events are outstanding ----

  predicate Matches(s: Lock) {
    s.held <==> s.count > 0
  }

  /** An acquire of nothing that takes the lock, or a last release whose unlock fails. */
  predicate Slips(s: Lock, c: Call) {
    match c
    case AcquireCall(n, writeOk) => n == 0 && s.count == 0 && !s.held && s.isOpen && writeOk
    case ReleaseCall(n, writeOk) => n == s.count && n > 0 && s.held && !writeOk
  }

  lemma SlipExactly(h: History, c: Call)
    requires Counted(h) && Matches(h.state)
    ensures Matches(Then(h, c).state) <==> !Slips(h.state, c)
  {
  }

  lemma Prefix(isOpen: bool, calls: seq<Call>, k: nat)
    requires k < |calls|
    ensures After(isOpen, calls[..k + 1]) == Then(After(isOpen, calls[..k]), calls[k])
  {
    hide Then;
    assert calls[..k + 1][..k] == calls[..k];
  }

  lemma {:induction false} NoSlipMatches(isOpen: bool, calls: seq<Call>, k: nat)
    requires forall j: nat :: j < |calls| ==> !Slips(After(isOpen, calls[..j]).state, calls[j])
    requires k <= |calls|
    ensures Matches(After(isOpen, calls[..k]).state)
    decreases k
  {
    hide Then, Counted, Logged, Slips;
    if k > 0 {
      NoSlipMatches(isOpen, calls, k - 1);
      WakelockInvariant(isOpen, calls[..k - 1]);
      SlipExactly(After(isOpen, calls[..k - 1]), calls[k - 1]);
      Prefix(isOpen, calls, k - 1);
    }
  }

  /** Whatever opens and writes fail: all along a run the kernel lock is held exactly while events are
      outstanding if and only if no call of the run slips. */
  lemma HeldWhileCounted(isOpen: bool, calls: seq<Call>)
    ensures (forall k: nat :: k <= |calls| ==> Matches(After(isOpen, calls[..k]).state))
       <==> (forall k: nat :: k < |calls| ==> !Slips(After(isOpen, calls[..k]).state, calls[k]))
  {
    hide After, Then, Counted, Logged, Slips, Matches;
    if forall k: nat :: k < |calls| ==> !Slips(After(isOpen, calls[..k]).state, calls[k]) {
      forall k: nat | k <= |calls|
        ensures Matches(After(isOpen, calls[..k]).state)
      {
        NoSlipMatches(isOpen, calls, k);
      }
    }
    if forall k: nat :: k <= |calls| ==> Matches(After(isOpen, calls[..k]).state) {
      forall k: nat | k < |calls|
        ensures !Slips(After(isOpen, calls[..k]).state, calls[k])
      {
        WakelockInvariant(isOpen, calls[..k]);
        SlipExactly(After(isOpen, calls[..k]), calls[k]);
        Prefix(isOpen, calls, k);
      }
    }
  }

  /** So it is when no acquire is for nothing and every unlock works; locks and opens may fail. */
  lemma HeldWithWorkingUnlocks(isOpen: bool, calls: seq<Call>)
    requires forall i :: 0 <= i < |calls| ==> if calls[i].AcquireCall? then calls[i].n > 0 else calls[i].writeOk
    ensures Matches(After(isOpen, calls).state)
  {
    hide After, Matches;
    NoSlipMatches(isOpen, calls, |calls|);
    assert calls[..|calls|] == calls;
  }

  /** The two slips: an acquire of nothing takes the lock for no event, and after a failed unlock the
      lock stays held with nothing outstanding. */
  lemma HeldWithoutCount()
    ensures After(true, [AcquireCall(0, true)]).state == Lock(0, true, true)
    ensures After(true, [AcquireCall(1, true), ReleaseCall(1, false)]).state == Lock(0, true, true)
  {
    assert [AcquireCall(0, true)][..0] == [];
    var calls := [AcquireCall(1, true), ReleaseCall(1, false)];
    assert calls[..1] == [AcquireCall(1, true)] && calls[..1][..0] == [];
  }

  // ---- after a failed unlock ----

  /** The last count is given back, but the kernel lock is not. */
  predicate FailedUnlock(s: Lock, c: Call) {
    c.ReleaseCall? && c.n == s.count && s.held && !(s.isOpen && c.writeOk)
  }

  predicate EndsStuck(isOpen: bool, calls: seq<Call>) {
    calls != [] && FailedUnlock(After(isOpen, calls[..|calls| - 1]).state, calls[|calls| - 1])
  }

  /** How a history goes on from a held lock: until its next successful write the lock stays held, and
      that write is the unlock. */
  predicate HeldUntilUnlock(a: History, b: History) {
    && a.writes <= b.writes
    && (b.writes == a.writes ==> b.state.held)
    && (b.writes != a.writes ==> b.writes[|a.writes|] == UnlockWrite)
  }

  lemma StuckThen(a: History, b: History, c: Call)
    requires HeldUntilUnlock(a, b)
    ensures HeldUntilUnlock(a, Then(b, c))
  {
    var e := Perform(b.state, c);
    if e.write.Some? {
      assert Then(b, c).writes == b.writes + [e.write.value];
    } else {
      assert Then(b, c).writes == b.writes;
    }
  }

  /** After a run that ended in a failed unlock nothing is outstanding and the lock is held. However the
      run goes on, the lock stays held up to the next successful write, and that is the unlock. Up to
      then one release of what is outstanding, with a write that works, gives the lock back. */
  lemma {:induction false} StuckLockIsReleased(isOpen: bool, calls: seq<Call>, more: seq<Call>)
    requires EndsStuck(isOpen, calls)
    ensures var a, b := After(isOpen, calls), After(isOpen, calls + more);
            var last := Then(b, ReleaseCall(b.state.count, true));
            && a.state.held && a.state.count == 0
            && HeldUntilUnlock(a, b)
            && (b.writes == a.writes ==> last.state == Lock(0, false, true) && last.writes == a.writes + [UnlockWrite])
    decreases |more|
  {
    hide Logged;
    var a := After(isOpen, calls);
    WakelockInvariant(isOpen, calls[..|calls| - 1]);
    StuckAtOnce(After(isOpen, calls[..|calls| - 1]), calls[|calls| - 1]);
    hide Then, FailedUnlock, EndsStuck, HeldUntilUnlock, Counted;
    if more == [] {
      assert calls + more == calls;
    } else {
      var init, c := more[..|more| - 1], more[|more| - 1];
      assert (calls + more)[..|calls + more| - 1] == calls + init;
      StuckLockIsReleased(isOpen, calls, init);
      StuckThen(a, After(isOpen, calls + init), c);
    }
    WakelockInvariant(isOpen, calls + more);
    Unstuck(a, After(isOpen, calls + more));
  }

  lemma StuckAtOnce(h: History, c: Call)
    requires Counted(h) && FailedUnlock(h.state, c)
    ensures var a := Then(h, c); a.state.held && a.state.count == 0 && HeldUntilUnlock(a, a)
  {
  }

  lemma Unstuck(a: History, b: History)
    requires Counted(b) && HeldUntilUnlock(a, b)
    ensures var last := Then(b, ReleaseCall(b.state.count, true));
            b.writes == a.writes ==> last.state == Lock(0, false, true) && last.writes == a.writes + [UnlockWrite]
  {
  }
}
