/**
 What a bus access costs a turbo CPU: it is held back by the fewest CPU cycles that give its chip
 the notice it needs and land in the cycle right after a PHI2 edge.
 */
module TurboWait {
  import opened Bytes
  import opened Interrupts
  import opened Machine

  function NextPhase(p: nat, div: nat): nat { if p + 1 < div then p + 1 else 0 }

  /** The phase after `n` CPU cycles at one divider. */
  function PhaseAfter(p: nat, n: nat, div: nat): nat
    decreases n
  {
    if n == 0 then p else NextPhase(PhaseAfter(p, n - 1, div), div)
  }

  /** `w` CPU cycles from phase `p` give `lead` cycles of notice and end at phase 0. */
  predicate Lands(w: nat, p: nat, div: nat, lead: nat) {
    lead <= w && PhaseAfter(p, w, div) == 0
  }

  /** No fewer cycles land with that notice. */
  ghost predicate IsLeast(w: nat, p: nat, div: nat, lead: nat) {
    Lands(w, p, div, lead) && forall x: nat :: Lands(x, p, div, lead) ==> w <= x
  }

  lemma {:induction false} PhaseAfterPlus(p: nat, n: nat, k: nat, div: nat)
    ensures PhaseAfter(p, n + k, div) == PhaseAfter(PhaseAfter(p, n, div), k, div)
    decreases k
  {
    if k > 0 {
      PhaseAfterPlus(p, n, k - 1, div);
    }
  }

  lemma {:induction false} PhaseRises(p: nat, n: nat, div: nat)
    requires p + n < div
    ensures PhaseAfter(p, n, div) == p + n
    decreases n
  {
    if n > 0 {
      PhaseRises(p, n - 1, div);
    }
  }

  /** From one edge to the next: `div` cycles, and phase 0 nowhere between. */
  lemma NextEdge(p: nat, w: nat, div: nat, k: nat)
    requires 0 < div && PhaseAfter(p, w, div) == 0 && 0 < k <= div
    ensures PhaseAfter(p, w + k, div) == 0 <==> k == div
  {
    PhaseAfterPlus(p, w, k, div);
    PhaseRises(0, k - 1, div);
  }

  lemma FirstEdge(p: nat, div: nat, x: nat)
    requires 0 < p < div && x <= div - p
    ensures PhaseAfter(p, x, div) == 0 <==> x == div - p
  {
    if x > 0 {
      PhaseRises(p, x - 1, div);
    }
  }

  /** Stretching from a landing: the result is a landing with notice, and every landing from
      `wait` on that gives the notice is no earlier. */
  lemma {:induction false} StretchIsLeast(p: nat, div: nat, lead: nat, wait: nat)
    requires 0 < div && PhaseAfter(p, wait, div) == 0
    ensures var w := Stretch(wait, div, lead);
      && Lands(w, p, div, lead)
      && (forall x: nat :: wait <= x && Lands(x, p, div, lead) ==> w <= x)
      && (w == wait || w < lead + div)
    decreases if wait < lead then lead - wait else 0
  {
    if wait < lead {
      NextEdge(p, wait, div, div);
      StretchIsLeast(p, div, lead, wait + div);
      forall x: nat | wait <= x < wait + div && Lands(x, p, div, lead)
        ensures false
      {
        NextEdge(p, wait, div, x - wait);
      }
    }
  }

  /** The wait is the least that lands, and less than two PHI2 cycles for any notice below one. */
  lemma WaitIsLeast(p: nat, div: nat, lead: nat)
    requires p < div
    ensures var w := WaitCycles(p, div, lead);
      && IsLeast(w, p, div, lead)
      && (lead < div ==> w < 2 * div)
  {
    if p == 0 {
      StretchIsLeast(p, div, lead, 0);
    } else {
      FirstEdge(p, div, div - p);
      StretchIsLeast(p, div, lead, div - p);
      forall x: nat | x < div - p
        ensures !Lands(x, p, div, lead)
      {
        FirstEdge(p, div, x);
      }
    }
  }

  /** Every kind of access asks for less than one PHI2 cycle of notice. */
  lemma LeadBelowDivider(kind: TurboKind, write: bool, div: nat)
    requires 0 < div
    ensures Notice(kind, write, div) < div
  {
    match Lead63(kind, write)
    case 0 =>
    case 1 => assert 1 * div < 63 * div;
    case 12 => assert 12 * div < 63 * div;
    case 30 => assert 30 * div < 63 * div;
    case 42 => assert 42 * div < 63 * div;
  }

  /** The divider does not change under the wait: the host asked for no other. */
  predicate Stable(t: Timing) { 1 < t.div && t.pendingDiv == t.div && t.phase < t.div }

  lemma CycleAdvancesPhase(b: Bus, m: Machine)
    requires Stable(m.time)
    ensures var r := IdleCycle(b, m);
      && Stable(r.time) && r.time.div == m.time.div
      && r.time.phase == NextPhase(m.time.phase, m.time.div)
      && r.log.cycles == m.log.cycles + 1
  {
    hide SampleAndBump, Valid, Phased, VectorsRead, Timely, AllLate, Exact, NeverSteals, LostIn, Taken, Stamped;
  }

  lemma {:induction false} IdleAdvancesPhase(b: Bus, m: Machine, n: nat)
    requires Stable(m.time)
    ensures var r := Idle(b, m, n);
      && Stable(r.time) && r.time.div == m.time.div
      && r.time.phase == PhaseAfter(m.time.phase, n, m.time.div)
      && r.log.cycles == m.log.cycles + n
    decreases n
  {
    hide IdleCycle, Valid, Phased, VectorsRead, Timely, AllLate, Exact, NeverSteals, LostIn, Taken, Stamped;
    if n > 0 {
      IdleAdvancesPhase(b, m, n - 1);
      CycleAdvancesPhase(b, Idle(b, m, n - 1));
    }
  }

  /** A notice of so many sixty-thirds of a PHI2 cycle, in whole CPU cycles. */
  function SixtyThirds(part: nat, div: nat): nat { part * div / 63 }

  /** What the bus asks for: a CIA 1 for a read and 12 for a write, IO1 and IO2 30 and 42. */
  function Asked(kind: TurboKind, write: bool): nat {
    if kind.Io12? then (if write then 42 else 30) else (if write then 12 else 1)
  }

  /** An access to a CIA or to IO1/IO2 happens in the cycle right after a PHI2 edge, as early as its
      notice allows, and always within two PHI2 cycles. */
  lemma BusAccessLandsOnEdge(b: Bus, m: Machine, a: word, write: bool)
    requires Stable(m.time) && b.accessKind(m.dev, a) in {BusCycle, Io12}
    ensures var r, waited := AccessWait(b, m, a, write), WaitFor(b, m, a, write);
      && r.log.cycles == m.log.cycles + waited && r.time.phase == 0
      && waited < 2 * m.time.div
      && IsLeast(waited, m.time.phase, m.time.div, SixtyThirds(Asked(b.accessKind(m.dev, a), write), m.time.div))
  {
    hide Idle, WaitCycles, Stretch, PhaseAfter, Lands;
    var kind, div := b.accessKind(m.dev, a), m.time.div;
    var lead := Notice(kind, write, div);
    assert lead == SixtyThirds(Asked(kind, write), div);
    hide Notice, SixtyThirds;
    LeadBelowDivider(kind, write, div);
    WaitIsLeast(m.time.phase, div, lead);
    IdleAdvancesPhase(b, m, WaitCycles(m.time.phase, div, lead));
    LandsAtEdge(WaitCycles(m.time.phase, div, lead), m.time.phase, div, lead);
  }

  /** Every other access waits for nothing, but for a SID access or a read inside the video chip in a short
      phase, which waits one cycle. */
  lemma OtherAccessesRun(b: Bus, m: Machine, a: word, write: bool)
    requires Stable(m.time) && b.accessKind(m.dev, a) !in {BusCycle, Io12}
    ensures var kind := b.accessKind(m.dev, a);
      var short := (kind.Sid? || (kind.Fast? && !write)) && b.shortCycle(m.time.div, m.time.phase);
      WaitFor(b, m, a, write) == if short then 1 else 0
  {
  }

  lemma LandsAtEdge(w: nat, p: nat, div: nat, lead: nat)
    requires Lands(w, p, div, lead)
    ensures PhaseAfter(p, w, div) == 0
  {
  }

  // ---- What each kind of cycle pays ----------------------------------------------------------

  /** What a cycle waited and what was stolen from it. */
  ghost predicate Pays(m: Machine, m': Machine, waits: nat, stolen: int) {
    var pays := m'.log.waits == m.log.waits + waits && m'.log.stolen == m.log.stolen + stolen;
    pays
  }

  lemma CycleIsFree(b: Bus, m: Machine)
    ensures Pays(m, ClkInc(b, m), 0, 0)
  {
    hide ClkInc, Steady;
  }

  lemma {:induction false} IdleStealsNothing(b: Bus, m: Machine, n: nat)
    ensures Pays(m, Idle(b, m, n), 0, 0)
    decreases n
  {
    hide ClkInc, Steady, Idled;
    if n > 0 {
      IdleStealsNothing(b, m, n - 1);
      CycleIsFree(b, Idle(b, m, n - 1));
    }
  }

  /** What a stall of the machine as it is would steal. */
  function StallOf(b: Bus, m: Machine, low: bool): nat {
    if m.time.badline then b.checkBa(m.dev, m.info, low).2 else 0
  }

  lemma WaitPays(b: Bus, m: Machine, a: word, write: bool)
    ensures Pays(m, AccessWait(b, m, a, write), WaitFor(b, m, a, write), 0)
  {
    hide Idle, Idled, WaitFor, Cycled;
    IdleStealsNothing(b, m, WaitFor(b, m, a, write));
  }

  /** A read waits for the turbo grid and then stalls for BA, a write waits and never stalls. */
  lemma AccessPays(b: Bus, m: Machine, kind: Kind, a: word, v: byte)
    ensures Pays(m, LoadCycle(b, m, kind, a).0, WaitFor(b, m, a, false), StallOf(b, AccessWait(b, m, a, false), false))
    ensures Pays(m, StoreCycle(b, m, kind, a, v), WaitFor(b, m, a, true), 0)
  {
    hide AccessWait, ClkInc, WaitFor, Cycled, Steady, Accessed, OneAhead;
    WaitPays(b, m, a, false);
    WaitPays(b, m, a, true);
    CycleIsFree(b, Load(b, m, kind, a).0);
    CycleIsFree(b, Store(b, m, kind, a, v));
  }

  /** Zero page and stack never wait; their reads stall, their writes do not. */
  lemma PageAccessPays(b: Bus, m: Machine, kind: Kind, a: word, v: byte)
    ensures Pays(m, LoadPageCycle(b, m, kind, a).0, 0, StallOf(b, m, false))
    ensures Pays(m, StorePageCycle(b, m, kind, a, v), 0, 0)
    ensures Pays(m, PushCycle(b, m, v), 0, 0)
    ensures Pays(m, PullCycle(b, m).0, 0, StallOf(b, m, false))
  {
    hide ClkInc, Cycled, Steady, Accessed, OneAhead, Stacked;
    var sp: int := Wrap8(m.regs.sp + 1);
    CycleIsFree(b, LoadPage(b, m, kind, a).0);
    CycleIsFree(b, WriteRaw(b, m, kind, a, v));
    CycleIsFree(b, WriteRaw(b, m, Write, 0x100 + m.regs.sp, v).(regs := m.regs.(sp := Wrap8(m.regs.sp - 1))));
    CycleIsFree(b, LoadPage(b, m.(regs := m.regs.(sp := sp)), Real, 0x100 + sp).0);
  }
}
