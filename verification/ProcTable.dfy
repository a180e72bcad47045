/** The process table of proc.c: its records, and the loops that scan it under
    ptable.lock, each against what it does to the table as a whole. */
module ProcTable {

  datatype PState = UNUSED | EMBRYO | SLEEPING | RUNNABLE | RUNNING | ZOMBIE

  /** What a process may sleep on: a process record (in wait) or a sleep lock. */
  datatype Chan = Nothing | OnProc(proc: nat) | OnLock(lock: nat)

  datatype Lock = Pt | Lk(lock: nat)

  /** Where a process is in the kernel code, at the points where other CPUs can
      take steps in between. Names follow the function and the order of points. A
      timer interrupt makes a process yield wherever it is, and then go back there. */
  datatype Pc =
    | Run
    | WantYield(back: Pc) | Yield1(back: Pc) | YieldR(back: Pc)
    | WantWait | Wait1 | WaitR
    | WantExit | Exit1 | Dead
    | Acq0(l: nat) | Acq1(l: nat) | Acq2(l: nat) | Acq3(l: nat) | Acq4(l: nat) | AcqR(l: nat) | Acq5(l: nat) | Acq6(l: nat)
    | Rel0(l: nat) | Rel1(l: nat) | Rel2(l: nat) | Rel3(l: nat) | Rel4(l: nat) | Rel5(l: nat)
    | WantKill(pid: nat) | Kill1(pid: nat)
    | WantFork | Fork1 | Fork2(np: nat) | Fork3(np: nat) | Fork4(np: nat) | Fork5(np: nat)
    | Forkret
    | PtDone

  /** A slot of the table. `parent` is a slot or none. The last two are not kernel
      fields: `pc` stands for the saved context, and `on` is the CPU whose
      `c->proc` is this process, -1 if none. */
  datatype Proc = Proc(state: PState, pid: nat, parent: int, chan: Chan, killed: bool, intena: bool, pc: Pc, on: int)

  type Table = seq<Proc>

  // ----- wakeup1

  function Wakeup(t: Table, ch: Chan): (r: Table)
    ensures |r| == |t|
  {
    seq(|t|, i requires 0 <= i < |t| => Woken(t[i], ch))
  }

  function Woken(p: Proc, ch: Chan): Proc {
    if p.state == SLEEPING && p.chan == ch then p.(state := RUNNABLE) else p
  }

  method Wakeup1(t: array<Proc>, ch: Chan)
    modifies t
    ensures t[..] == Wakeup(old(t[..]), ch)
    ensures forall j :: 0 <= j < t.Length ==>
              t[j] == old(t[j]).(state := if old(t[j]).state == SLEEPING && old(t[j]).chan == ch then RUNNABLE else old(t[j]).state)
  {
    var i := 0;
    while i < t.Length
      invariant 0 <= i <= t.Length
      invariant forall j :: 0 <= j < t.Length ==> t[j] == if j < i then Woken(old(t[j]), ch) else old(t[j])
    {
      if t[i].state == SLEEPING && t[i].chan == ch {
        t[i] := t[i].(state := RUNNABLE);
      }
      i := i + 1;
    }
  }

  // ----- exit

  /** The children of `cur` go to `init`, which is woken if one is a zombie. */
  function Reparent(t: Table, cur: nat, init: nat): (r: Table)
    requires init < |t|
    ensures |r| == |t|
  {
    var u := if HasZombie(t, cur) then Wakeup(t, OnProc(init)) else t;
    seq(|u|, i requires 0 <= i < |u| => if u[i].parent == cur then u[i].(parent := init) else u[i])
  }

  predicate HasZombie(t: Table, parent: nat) {
    exists i :: 0 <= i < |t| && t[i].parent == parent && t[i].state == ZOMBIE
  }

  /** All that `exit` does to the table while it holds the lock. */
  function Exited(t: Table, cur: nat, init: nat): (r: Table)
    requires cur < |t| && init < |t|
    ensures |r| == |t|
  {
    var u := if t[cur].parent >= 0 then Wakeup(t, OnProc(t[cur].parent)) else t;
    var v := Reparent(u, cur, init);
    v[cur := v[cur].(state := ZOMBIE)]
  }

  method ExitTable(t: array<Proc>, cur: nat, init: nat)
    requires cur < t.Length && init < t.Length && cur != init && t[cur].parent >= 0
    modifies t
    ensures t[..] == Exited(old(t[..]), cur, init)
    ensures forall j :: 0 <= j < t.Length ==> LeftBy(old(t[..]), cur, init, j, t[..][j])
  {
    hide Exited, LeftBy;
    ExitedIs(t[..], cur, init);
    Wakeup1(t, OnProc(t[cur].parent));
    HandOver(t, cur, init);
    ghost var v := t[..];
    t[cur] := t[cur].(state := ZOMBIE);
    assert t[..] == v[cur := v[cur].(state := ZOMBIE)];
    ExitedParts(old(t[..]), cur, init);
  }

  lemma ExitedParts(t: Table, cur: nat, init: nat)
    requires cur < |t| && init < |t| && t[cur].parent >= 0
    ensures var v := Reparent(Wakeup(t, OnProc(t[cur].parent)), cur, init); Exited(t, cur, init) == v[cur := v[cur].(state := ZOMBIE)]
  {}

  /** The loop of `exit` over its children. */
  method HandOver(t: array<Proc>, cur: nat, init: nat)
    requires cur < t.Length && init < t.Length && cur != init
    modifies t
    ensures t[..] == Reparent(old(t[..]), cur, init)
  {
    hide HasZombie;
    ghost var u := t[..];
    NoZombieYet(u, cur);
    var i := 0;
    while i < t.Length
      invariant 0 <= i <= t.Length
      invariant forall j :: 0 <= j < t.Length ==> t[j] == ReparentedTo(u, cur, init, i, j)
    {
      ZombieNext(u, cur, i);
      if t[i].parent == cur {
        t[i] := t[i].(parent := init);
        if t[i].state == ZOMBIE {
          Wakeup1(t, OnProc(init));
        }
      }
      i := i + 1;
    }
    assert u[..t.Length] == u;
  }

  /** Whom the exit of `cur` wakes: its parent if it waits, and init if it waits and
      inherits an exited child. */
  ghost predicate MustWake(t: Table, cur: nat, init: nat, j: nat)
    requires cur < |t| && j < |t|
  {
    && t[j].state == SLEEPING && t[cur].parent >= 0
    && (t[j].chan == OnProc(t[cur].parent) ||
        (t[j].chan == OnProc(init) && HasZombie(t, cur)))
  }

  lemma ExitedIs(t: Table, cur: nat, init: nat)
    requires cur < |t| && init < |t| && t[cur].parent >= 0
    ensures forall j :: 0 <= j < |t| ==> LeftBy(t, cur, init, j, Exited(t, cur, init)[j])
  {
    hide Exited, LeftBy;
    forall j | 0 <= j < |t|
      ensures LeftBy(t, cur, init, j, Exited(t, cur, init)[j])
    {
      ExitedOne(t, cur, init, j);
    }
  }

  lemma ExitedOne(t: Table, cur: nat, init: nat, j: nat)
    requires cur < |t| && init < |t| && t[cur].parent >= 0 && j < |t|
    ensures LeftBy(t, cur, init, j, Exited(t, cur, init)[j])
  {
    hide HasZombie, Exited, Reparent, Wakeup;
    ExitedParts(t, cur, init);
    var u := Wakeup(t, OnProc(t[cur].parent));
    SameZombies(t, OnProc(t[cur].parent), cur);
    ReparentIs(u, cur, init, j);
    WakeupAt(t, OnProc(t[cur].parent), j);
  }

  lemma WakeupAt(t: Table, ch: Chan, j: nat)
    requires j < |t|
    ensures Wakeup(t, ch)[j] == Woken(t[j], ch)
  {}

  lemma SameZombies(t: Table, ch: Chan, cur: nat)
    ensures HasZombie(Wakeup(t, ch), cur) <==> HasZombie(t, cur)
  {
    var u := Wakeup(t, ch);
    if HasZombie(t, cur) {
      var i :| 0 <= i < |t| && t[i].parent == cur && t[i].state == ZOMBIE;
      assert u[i] == t[i];
    }
  }

  lemma ReparentIs(t: Table, cur: nat, init: nat, j: nat)
    requires init < |t| && j < |t|
    ensures var q := if HasZombie(t, cur) then Woken(t[j], OnProc(init)) else t[j];
            Reparent(t, cur, init)[j] == q.(parent := if q.parent == cur then init else q.parent)
  {
    hide HasZombie;
  }

  /** What becomes of slot `j` when `cur` exits: a child goes to init, whoever must wake is
      runnable, `cur` is a zombie, and nothing else changes. */
  ghost predicate LeftBy(t: Table, cur: nat, init: nat, j: nat, q: Proc)
    requires cur < |t| && j < |t|
  {
    && q == t[j].(state := q.state, parent := if t[j].parent == cur then init else t[j].parent)
    && q.state == if j == cur then ZOMBIE else if MustWake(t, cur, init, j) then RUNNABLE else t[j].state
  }

  lemma NoZombieYet(u: Table, cur: nat)
    ensures !HasZombie(u[..0], cur)
  {}

  lemma ZombieNext(u: Table, cur: nat, i: nat)
    requires i < |u|
    ensures HasZombie(u[..i + 1], cur) <==> HasZombie(u[..i], cur) || (u[i].parent == cur && u[i].state == ZOMBIE)
  {
    if HasZombie(u[..i], cur) {
      var j :| 0 <= j < i && u[..i][j].parent == cur && u[..i][j].state == ZOMBIE;
      assert u[..i + 1][j] == u[j];
    }
    if u[i].parent == cur && u[i].state == ZOMBIE {
      assert u[..i + 1][i] == u[i];
    }
    if HasZombie(u[..i + 1], cur) {
      var j :| 0 <= j < i + 1 && u[..i + 1][j].parent == cur && u[..i + 1][j].state == ZOMBIE;
      if j < i {
        assert u[..i][j] == u[j];
      }
    }
  }

  /** Slot `j` when the first `i` slots have been looked at. */
  ghost function ReparentedTo(u: Table, cur: nat, init: nat, i: nat, j: nat): Proc
    requires i <= |u| && j < |u|
  {
    var p := if HasZombie(u[..i], cur) then Woken(u[j], OnProc(init)) else u[j];
    if j < i && p.parent == cur then p.(parent := init) else p
  }

  // ----- wait

  /** What a scan for exited children finds. */
  datatype Scan = Reap(child: nat) | NoKids | KidsAlive

  /** The scan of `wait` over the slots from `i` on. */
  function ScanFrom(t: Table, cur: nat, i: nat, kids: bool): Scan
    requires i <= |t|
    decreases |t| - i
  {
    if i == |t| then (if kids then KidsAlive else NoKids)
    else if t[i].parent != cur then ScanFrom(t, cur, i + 1, kids)
    else if t[i].state == ZOMBIE then Reap(i)
    else ScanFrom(t, cur, i + 1, true)
  }

  predicate ExitedChild(t: Table, cur: nat, j: nat)
    requires j < |t|
  {
    t[j].parent == cur && t[j].state == ZOMBIE
  }

  lemma {:induction false} ScanFinds(t: Table, cur: nat, i: nat, kids: bool)
    requires i <= |t|
    ensures match ScanFrom(t, cur, i, kids)
            case Reap(c) => i <= c < |t| && ExitedChild(t, cur, c) && forall j :: i <= j < c ==> !ExitedChild(t, cur, j)
            case NoKids => !kids && forall j :: i <= j < |t| ==> t[j].parent != cur
            case KidsAlive =>
              && (kids || exists j :: i <= j < |t| && t[j].parent == cur)
              && forall j :: i <= j < |t| ==> !ExitedChild(t, cur, j)
    decreases |t| - i
  {
    if i < |t| {
      ScanFinds(t, cur, i + 1, kids);
      ScanFinds(t, cur, i + 1, true);
    }
  }

  /** A reaped slot is as good as new. */
  function Freed(p: Proc): Proc {
    p.(state := UNUSED, pid := 0, parent := -1, killed := false)
  }

  method WaitScan(t: array<Proc>, cur: nat) returns (r: Scan)
    modifies t
    ensures r == ScanFrom(old(t[..]), cur, 0, false)
    ensures r.Reap? <==> exists j :: 0 <= j < t.Length && ExitedChild(old(t[..]), cur, j)
    ensures r.NoKids? <==> forall j :: 0 <= j < t.Length ==> old(t[j]).parent != cur
    ensures r.Reap? ==> r.child < t.Length && ExitedChild(old(t[..]), cur, r.child) && forall j :: 0 <= j < r.child ==> !ExitedChild(old(t[..]), cur, j)
    ensures forall j :: 0 <= j < t.Length ==>
              t[j] == if r == Reap(j) then old(t[j]).(state := UNUSED, pid := 0, parent := -1, killed := false) else old(t[j])
  {
    ScanFinds(t[..], cur, 0, false);
    var havekids := false;
    var i := 0;
    while i < t.Length
      invariant 0 <= i <= t.Length && t[..] == old(t[..])
      invariant ScanFrom(t[..], cur, 0, false) == ScanFrom(t[..], cur, i, havekids)
    {
      if t[i].parent == cur {
        havekids := true;
        if t[i].state == ZOMBIE {
          t[i] := Freed(t[i]);
          return Reap(i);
        }
      }
      i := i + 1;
    }
    return if havekids then KidsAlive else NoKids;
  }

  // ----- kill and allocproc

  /** The first slot from `i` on with this pid; |t| if there is none. */
  function PidFrom(t: Table, pid: nat, i: nat): (r: nat)
    requires i <= |t|
    ensures i <= r <= |t| && (r < |t| ==> t[r].pid == pid)
    ensures forall j :: i <= j < r ==> t[j].pid != pid
    decreases |t| - i
  {
    if i == |t| || t[i].pid == pid then i else PidFrom(t, pid, i + 1)
  }

  function Killed(t: Table, pid: nat): (r: Table)
    ensures |r| == |t|
  {
    var k := PidFrom(t, pid, 0);
    if k == |t| then t
    else t[k := t[k].(killed := true, state := if t[k].state == SLEEPING then RUNNABLE else t[k].state)]
  }

  /** Slot `j` is the first one with this pid. */
  ghost predicate FirstWith(t: Table, pid: nat, j: nat)
    requires j < |t|
  {
    t[j].pid == pid && forall i :: 0 <= i < j ==> t[i].pid != pid
  }

  /** Marked, and not asleep: it gets to where it looks at the mark. */
  predicate KilledProc(p: Proc, q: Proc) {
    && q == p.(killed := true, state := q.state) && q.state != SLEEPING
    && (if p.state == SLEEPING then q.state == RUNNABLE else q.state == p.state)
  }

  lemma KilledIs(t: Table, pid: nat)
    ensures forall j :: 0 <= j < |t| ==> if FirstWith(t, pid, j) then KilledProc(t[j], Killed(t, pid)[j]) else Killed(t, pid)[j] == t[j]
  {
    var k := PidFrom(t, pid, 0);
    forall j | 0 <= j < |t|
      ensures FirstWith(t, pid, j) <==> j == k
    {}
  }

  method Kill(t: array<Proc>, pid: nat) returns (found: bool)
    modifies t
    ensures t[..] == Killed(old(t[..]), pid)
    ensures found <==> exists i :: 0 <= i < t.Length && old(t[i]).pid == pid
    ensures forall j :: 0 <= j < t.Length ==>
              if FirstWith(old(t[..]), pid, j) then KilledProc(old(t[j]), t[j]) else t[j] == old(t[j])
  {
    KilledIs(t[..], pid);
    var i := 0;
    while i < t.Length
      invariant 0 <= i <= t.Length && t[..] == old(t[..])
      invariant PidFrom(t[..], pid, 0) == PidFrom(t[..], pid, i)
      invariant forall j :: 0 <= j < i ==> t[j].pid != pid
    {
      if t[i].pid == pid {
        t[i] := t[i].(killed := true);
        if t[i].state == SLEEPING {
          t[i] := t[i].(state := RUNNABLE);
        }
        return true;
      }
      i := i + 1;
    }
    return false;
  }

  /** The first unused slot from `i` on; |t| if there is none. */
  function UnusedFrom(t: Table, i: nat): (r: nat)
    requires i <= |t|
    ensures i <= r <= |t| && (r < |t| ==> t[r].state == UNUSED)
    ensures forall j :: i <= j < r ==> t[j].state != UNUSED
    decreases |t| - i
  {
    if i == |t| || t[i].state == UNUSED then i else UnusedFrom(t, i + 1)
  }

  method FindUnused(t: array<Proc>) returns (found: bool, p: nat)
    ensures p == UnusedFrom(t[..], 0) && found == (p < t.Length)
  {
    p, found := 0, false;
    while p < t.Length && !found
      invariant 0 <= p <= t.Length && UnusedFrom(t[..], 0) == UnusedFrom(t[..], p)
      invariant found ==> p < t.Length && t[p].state == UNUSED
      decreases t.Length - p, if found then 0 else 1
    {
      if t[p].state == UNUSED {
        found := true;
      } else {
        p := p + 1;
      }
    }
  }
}
