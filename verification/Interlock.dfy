/** The interlock latch of the power-supply controllers: edge-triggered notifications over sticky
    bits, over any sequence of CAN status messages and resets. */
module Interlock {
  import opened Bytes

  const SOFT_INTERLOCK: nat := 0x4
  const HARD_INTERLOCK: nat := 0x8
  const RESET_INTERLOCKS: nat := 0x1001

  /** One fault: the module that reports it, its bit in the status message, and the bit it latches in
      HardInterlocks or SoftInterlocks. The 32-bit words are sets of bit positions. */
  datatype Fault = Fault(source: nat, byte: nat, bit: bv8, hard: bool, latch: nat)

  /** The eight bytes of a CAN message. */
  type Message = d: seq<bv8> | |d| == 8 witness [0, 0, 0, 0, 0, 0, 0, 0]

  datatype Event = Status(source: nat, data: Message) | Reset

  // ---- Fault tables ----

  /** FAP_DCDC, module Mod1Q1 */
  const FAP_DCDC: seq<Fault> := [
    Fault(0, 4, 0x01, true, 9), Fault(0, 4, 0x02, true, 10), Fault(0, 4, 0x04, true, 11), Fault(0, 4, 0x08, true, 12),
    Fault(0, 4, 0x10, true, 13), Fault(0, 4, 0x20, false, 0), Fault(0, 4, 0x40, false, 1), Fault(0, 4, 0x80, false, 2),
    Fault(0, 5, 0x01, false, 3), Fault(0, 5, 0x02, false, 4), Fault(0, 5, 0x04, true, 1), Fault(0, 5, 0x08, true, 14),
    Fault(0, 5, 0x10, true, 15), Fault(0, 5, 0x20, false, 10)]

  /** FAP_ACDC, the rectifier; both output voltages latch the bit of output 1. */
  const FAP_ACDC: seq<Fault> := [
    Fault(0, 4, 0x01, true, 16), Fault(0, 4, 0x02, true, 17), Fault(0, 4, 0x04, true, 18), Fault(0, 4, 0x08, true, 18),
    Fault(0, 4, 0x10, true, 20), Fault(0, 4, 0x20, false, 4), Fault(0, 4, 0x40, false, 5), Fault(0, 4, 0x80, false, 6),
    Fault(0, 5, 0x01, false, 7), Fault(0, 5, 0x02, false, 2), Fault(0, 5, 0x04, false, 3), Fault(0, 5, 0x08, true, 2),
    Fault(0, 5, 0x10, true, 21), Fault(0, 5, 0x20, false, 8), Fault(0, 5, 0x40, false, 9), Fault(0, 5, 0x80, false, 10)]

  /** FAC_Full_DCDC, modules Mod1Q4 and Mod2Q4 */
  const FAC_FULL_DCDC: seq<Fault> := [
    Fault(0, 5, 0x01, true, 16), Fault(0, 5, 0x02, false, 0), Fault(0, 5, 0x04, false, 1), Fault(0, 5, 0x08, false, 10),
    Fault(1, 5, 0x01, true, 16), Fault(1, 5, 0x02, false, 0), Fault(1, 5, 0x04, false, 1), Fault(1, 5, 0x08, false, 10)]

  /** The byte and latch numbers are in range. */
  predicate WellFormed(table: seq<Fault>) {
    forall k :: 0 <= k < |table| ==> table[k].byte < 8 && table[k].latch < 32
  }

  lemma TablesAreWellFormed()
    ensures WellFormed(FAP_DCDC) && WellFormed(FAP_ACDC) && WellFormed(FAC_FULL_DCDC)
  {
  }

  /** Two faults that latch the same bit of the same word. */
  predicate Shares(table: seq<Fault>, i: nat, j: nat)
    requires i < |table| && j < |table|
  {
    table[i].hard == table[j].hard && table[i].latch == table[j].latch
  }

  /** Which faults share a bit: none in FAP_DCDC, the two output voltages in FAP_ACDC, and each fault of
      Mod1Q4 with its counterpart of Mod2Q4 in FAC_Full_DCDC. */
  lemma SharedLatches()
    ensures forall i, j :: 0 <= i < j < |FAP_DCDC| ==> !Shares(FAP_DCDC, i, j)
    ensures forall i, j :: 0 <= i < j < |FAP_ACDC| ==> (Shares(FAP_ACDC, i, j) <==> i == 2 && j == 3)
    ensures forall i, j :: 0 <= i < j < |FAC_FULL_DCDC| ==> (Shares(FAC_FULL_DCDC, i, j) <==> j == i + 4)
  {
  }

  /** The message asserts the fault. */
  predicate Asserts(f: Fault, m: nat, data: Message)
    requires f.byte < 8
  {
    f.source == m && data[f.byte] & f.bit != 0
  }

  // ---- What a trace of events means ----

  /** Fault k was asserted by some message since the last reset. */
  predicate Asserted(table: seq<Fault>, trace: seq<Event>, k: nat)
    requires WellFormed(table) && k < |table|
    decreases |trace|
  {
    trace != [] &&
    match trace[|trace| - 1]
    case Reset => false
    case Status(m, data) => Asserts(table[k], m, data) || Asserted(table, trace[..|trace| - 1], k)
  }

  /** The last message of its module since the last reset asserted fault k. */
  predicate Present(table: seq<Fault>, trace: seq<Event>, k: nat)
    requires WellFormed(table) && k < |table|
    decreases |trace|
  {
    trace != [] &&
    match trace[|trace| - 1]
    case Reset => false
    case Status(m, data) => if table[k].source == m then Asserts(table[k], m, data) else Present(table, trace[..|trace| - 1], k)
  }

  function Code(f: Fault): nat { if f.hard then HARD_INTERLOCK else SOFT_INTERLOCK }

  /** The rising edges among the first n faults when a message arrives after the trace. */
  function Edges(table: seq<Fault>, trace: seq<Event>, m: nat, data: Message, n: nat): seq<nat>
    requires WellFormed(table) && n <= |table|
    decreases n
  {
    if n == 0 then []
    else
      Edges(table, trace, m, data, n - 1)
      + (if Asserts(table[n - 1], m, data) && !Present(table, trace, n - 1) then [Code(table[n - 1])] else [])
  }

  /** Every notification a trace must cause: one for each rising edge, and one for each reset. */
  function Notifications(table: seq<Fault>, trace: seq<Event>): seq<nat>
    requires WellFormed(table)
    decreases |trace|
  {
    if trace == [] then []
    else
      var front := trace[..|trace| - 1];
      Notifications(table, front) + match trace[|trace| - 1]
                                    case Reset => [RESET_INTERLOCKS]
                                    case Status(m, data) => Edges(table, front, m, data, |table|)
  }

  /** The bits of all hard (or soft) faults asserted since the last reset. */
  function Latched(table: seq<Fault>, trace: seq<Event>, hard: bool): set<nat>
    requires WellFormed(table)
  {
    set k | 0 <= k < |table| && table[k].hard == hard && Asserted(table, trace, k) :: table[k].latch
  }

  /** A latched bit says that one of the faults that share it was asserted since the last reset; a fault
      that shares its bit with no other is identified by it. */
  lemma LatchedMeans(table: seq<Fault>, trace: seq<Event>, k: nat)
    requires WellFormed(table) && k < |table|
    ensures table[k].latch in Latched(table, trace, table[k].hard) <==>
              exists j :: 0 <= j < |table| && Shares(table, j, k) && Asserted(table, trace, j)
    ensures (forall j :: 0 <= j < |table| && j != k ==> !Shares(table, j, k)) ==>
              (table[k].latch in Latched(table, trace, table[k].hard) <==> Asserted(table, trace, k))
  {
    hide Asserted;
    if table[k].latch in Latched(table, trace, table[k].hard) {
      var j :| 0 <= j < |table| && table[j].hard == table[k].hard && Asserted(table, trace, j) && table[j].latch == table[k].latch;
      assert Shares(table, j, k);
    }
    assert Shares(table, k, k);
  }

  lemma {:induction false} PresentIsAsserted(table: seq<Fault>, trace: seq<Event>, k: nat)
    requires WellFormed(table) && k < |table|
    ensures Present(table, trace, k) ==> Asserted(table, trace, k)
    decreases |trace|
  {
    if trace != [] && trace[|trace| - 1].Status? { PresentIsAsserted(table, trace[..|trace| - 1], k); }
  }

  /** The bits of the first n faults that a message asserts. */
  function Added(table: seq<Fault>, m: nat, data: Message, hard: bool, n: nat): set<nat>
    requires WellFormed(table) && n <= |table|
  {
    set k | 0 <= k < n && table[k].hard == hard && Asserts(table[k], m, data) :: table[k].latch
  }

  lemma {:induction false} LatchedNext(table: seq<Fault>, trace: seq<Event>, m: nat, data: Message, hard: bool)
    requires WellFormed(table)
    ensures Latched(table, trace + [Status(m, data)], hard) == Latched(table, trace, hard) + Added(table, m, data, hard, |table|)
  {
    var next := trace + [Status(m, data)];
    assert next[..|trace|] == trace;
    assert forall k :: 0 <= k < |table| ==> (Asserted(table, next, k) <==> Asserts(table[k], m, data) || Asserted(table, trace, k));
  }

  lemma {:induction false} AddedNext(table: seq<Fault>, m: nat, data: Message, hard: bool, k: nat)
    requires WellFormed(table) && k < |table|
    ensures Added(table, m, data, hard, k + 1)
         == Added(table, m, data, hard, k) + if table[k].hard == hard && Asserts(table[k], m, data) then {table[k].latch} else {}
  {
  }

  lemma {:induction false} NothingYet(table: seq<Fault>, trace: seq<Event>, m: nat, data: Message)
    requires WellFormed(table)
    ensures Added(table, m, data, true, 0) == Added(table, m, data, false, 0) == {} && Edges(table, trace, m, data, 0) == []
  {
  }

  lemma {:induction false} AssertsSource(f: Fault, m: nat, data: Message)
    requires f.byte < 8
    ensures Asserts(f, m, data) ==> f.source == m
  {
  }

  lemma {:induction false} EdgesNext(table: seq<Fault>, trace: seq<Event>, m: nat, data: Message, k: nat)
    requires WellFormed(table) && k < |table|
    ensures Edges(table, trace, m, data, k + 1)
         == Edges(table, trace, m, data, k)
            + if Asserts(table[k], m, data) && !Present(table, trace, k) then [Code(table[k])] else []
  {
  }

  /** A message that repeats the one before notifies of nothing and latches nothing new. */
  lemma {:induction false} RepeatIsSilent(table: seq<Fault>, trace: seq<Event>, m: nat, data: Message, n: nat)
    requires WellFormed(table) && n <= |table|
    ensures Edges(table, trace + [Status(m, data)], m, data, n) == []
    decreases n
  {
    if n > 0 {
      RepeatIsSilent(table, trace, m, data, n - 1);
      AssertsSource(table[n - 1], m, data);
      PresentNext(table, trace, m, data, n - 1);
      hide Present, Asserts;
    }
  }

  lemma {:induction false} PresentNext(table: seq<Fault>, trace: seq<Event>, m: nat, data: Message, k: nat)
    requires WellFormed(table) && k < |table|
    ensures Present(table, trace + [Status(m, data)], k) == if table[k].source == m then Asserts(table[k], m, data) else Present(table, trace, k)
    ensures !Present(table, trace + [Reset], k)
  {
    assert (trace + [Status(m, data)])[..|trace|] == trace && (trace + [Reset])[..|trace|] == trace;
  }

  /** The notifications for the faults that are asserted, each once. */
  function AllCodes(table: seq<Fault>, m: nat, data: Message, n: nat): seq<nat>
    requires WellFormed(table) && n <= |table|
  {
    if n == 0 then [] else AllCodes(table, m, data, n - 1) + if Asserts(table[n - 1], m, data) then [Code(table[n - 1])] else []
  }

  /** Behind a reset all faults notify again. */
  lemma {:induction false} EdgesBehindReset(table: seq<Fault>, trace: seq<Event>, m: nat, data: Message, n: nat)
    requires WellFormed(table) && n <= |table|
    ensures Edges(table, trace + [Reset], m, data, n) == AllCodes(table, m, data, n)
    decreases n
  {
    if n > 0 {
      EdgesBehindReset(table, trace, m, data, n - 1);
      PresentNext(table, trace, m, data, n - 1);
      hide Present, Asserts;
    }
  }

  /** So do they behind a message of the same module without them. */
  lemma {:induction false} EdgesBehindQuiet(table: seq<Fault>, trace: seq<Event>, m: nat, quiet: Message, data: Message, n: nat)
    requires WellFormed(table) && n <= |table|
    requires forall k :: 0 <= k < |table| ==> !Asserts(table[k], m, quiet)
    ensures Edges(table, trace + [Status(m, quiet)], m, data, n) == AllCodes(table, m, data, n)
    decreases n
  {
    if n > 0 {
      EdgesBehindQuiet(table, trace, m, quiet, data, n - 1);
      PresentNext(table, trace, m, quiet, n - 1);
      AssertsSource(table[n - 1], m, data);
      hide Present, Asserts;
    }
  }

  /** A set digit asserts the faults that have it, in the message of their module. */
  lemma {:induction false} DigitAsserts(f: Fault, m: nat, data: Message)
    requires f.byte < 8 && f.bit != 0
    ensures data[f.byte] == 0 ==> !Asserts(f, m, data)
    ensures data[f.byte] & f.bit == f.bit ==> (Asserts(f, m, data) <==> f.source == m)
  {
  }

  /** A reset clears everything and is announced. */
  lemma ResetClears(table: seq<Fault>, trace: seq<Event>, hard: bool)
    requires WellFormed(table)
    ensures Notifications(table, trace + [Reset]) == Notifications(table, trace) + [0x1001]
    ensures Latched(table, trace + [Reset], hard) == {}
  {
    assert (trace + [Reset])[..|trace|] == trace;
    assert forall k :: 0 <= k < |table| ==> !Asserted(table, trace + [Reset], k);
  }

  lemma {:induction false} NotificationsNext(table: seq<Fault>, trace: seq<Event>, m: nat, data: Message)
    requires WellFormed(table)
    ensures Notifications(table, trace + [Status(m, data)]) == Notifications(table, trace) + Edges(table, trace, m, data, |table|)
  {
    assert (trace + [Status(m, data)])[..|trace|] == trace;
  }

  /** Behind a reset a message that asserts a single fault notifies once, of the kind of the fault, and
      latches its bit alone. */
  lemma {:induction false} OneFault(table: seq<Fault>, trace: seq<Event>, m: nat, data: Message, k: nat)
    requires WellFormed(table) && k < |table|
    requires forall j :: 0 <= j < |table| ==> (Asserts(table[j], m, data) <==> j == k)
    ensures var before, after := trace + [Reset], trace + [Reset] + [Status(m, data)];
            && Notifications(table, after) == Notifications(table, before) + [if table[k].hard then 0x8 else 0x4]
            && Latched(table, after, table[k].hard) == {table[k].latch} && Latched(table, after, !table[k].hard) == {}
  {
    hide Notifications, Edges, AllCodes, Latched, Asserts;
    var before := trace + [Reset];
    OneCode(table, m, data, k, |table|);
    EdgesBehindReset(table, trace, m, data, |table|);
    NotificationsNext(table, before, m, data);
    ResetClears(table, trace, true);
    ResetClears(table, trace, false);
    LatchedNext(table, before, m, data, table[k].hard);
    LatchedNext(table, before, m, data, !table[k].hard);
    OneAdded(table, m, data, k);
  }

  lemma {:induction false} OneAdded(table: seq<Fault>, m: nat, data: Message, k: nat)
    requires WellFormed(table) && k < |table|
    requires forall j :: 0 <= j < |table| ==> (Asserts(table[j], m, data) <==> j == k)
    ensures Added(table, m, data, table[k].hard, |table|) == {table[k].latch} && Added(table, m, data, !table[k].hard, |table|) == {}
  {
    hide Asserts;
  }

  lemma {:induction false} OneCode(table: seq<Fault>, m: nat, data: Message, k: nat, n: nat)
    requires WellFormed(table) && k < |table| && n <= |table|
    requires forall j :: 0 <= j < |table| ==> (Asserts(table[j], m, data) <==> j == k)
    ensures AllCodes(table, m, data, n) == if k < n then [Code(table[k])] else []
    decreases n
  {
    if n > 0 { OneCode(table, m, data, k, n - 1); }
  }

  const DIGITS: seq<bv8> := [0x01, 0x02, 0x04, 0x08, 0x10, 0x20, 0x40, 0x80]

  /** The faults take the digits of the status bytes in order, from byte 4 on. */
  lemma DcdcDigits()
    ensures forall i :: 0 <= i < |FAP_DCDC| ==> var f := FAP_DCDC[i]; f.source == 0 && f.byte == 4 + i / 8 && f.bit == DIGITS[i % 8]
  {
  }

  lemma AcdcDigits()
    ensures forall i :: 0 <= i < |FAP_ACDC| ==> var f := FAP_ACDC[i]; f.source == 0 && f.byte == 4 + i / 8 && f.bit == DIGITS[i % 8]
  {
  }

  /** Four digits of byte 5 in the message of each of the two modules. */
  lemma FullDcdcDigits()
    ensures forall i :: 0 <= i < |FAC_FULL_DCDC| ==> var f := FAC_FULL_DCDC[i]; f.source == i / 4 && f.byte == 5 && f.bit == DIGITS[i % 4]
  {
  }

  // ---- The controller ----

  class Controller {
    const table: seq<Fault>
    const flags: array<bool>      // the status flags of the modules, one for each fault
    var hard: set<nat>            // HardInterlocks
    var soft: set<nat>            // SoftInterlocks
    var sent: seq<nat>            // the flags sent to the other core
    ghost var trace: seq<Event>

    /** Flags, bits and notifications are what the trace says. */
    ghost predicate Valid()
      reads this, flags
    {
      && WellFormed(table) && flags.Length == |table|
      && (forall k :: 0 <= k < |table| ==> flags[k] == Present(table, trace, k))
      && hard == Latched(table, trace, true)
      && soft == Latched(table, trace, false)
      && sent == Notifications(table, trace)
    }

    constructor (faults: seq<Fault>)
      requires WellFormed(faults)
      ensures Valid() && table == faults && trace == [] && fresh(flags)
    {
      table := faults;
      flags := new bool[|faults|](_ => false);
      hard, soft, sent, trace := {}, {}, [], [];
    }

    /** SendIpcFlag */
    method Notify(flag: nat)
      modifies this`sent
      ensures sent == old(sent) + [flag]
    {
      sent := sent + [flag];
    }

    /** The block that the handlers repeat for every fault. */
    method Check(k: nat, m: nat, data: Message)
      requires WellFormed(table) && k < |table| == flags.Length
      modifies this`hard, this`soft, this`sent, flags
      ensures var f := table[k];
              var edge := Asserts(f, m, data) && !old(flags[k]);
              && flags[k] == (if f.source == m then Asserts(f, m, data) else old(flags[k]))
              && (forall j :: 0 <= j < |table| && j != k ==> flags[j] == old(flags[j]))
              && hard == (if edge && f.hard then old(hard) + {f.latch} else old(hard))
              && soft == (if edge && !f.hard then old(soft) + {f.latch} else old(soft))
              && sent == (if edge then old(sent) + [Code(f)] else old(sent))
    {
      var f := table[k];
      if f.source == m {
        if Asserts(f, m, data) {
          if !flags[k] {
            flags[k] := true;
            if f.hard {
              hard := hard + {f.latch};
              Notify(HARD_INTERLOCK);
            } else {
              soft := soft + {f.latch};
              Notify(SOFT_INTERLOCK);
            }
          }
        } else {
          flags[k] := false;
        }
      }
    }

    /** All the blocks of a status message. */
    method CheckAll(m: nat, data: Message)
      requires Valid()
      modifies this`hard, this`soft, this`sent, flags
      ensures forall j :: 0 <= j < |table| ==>
                flags[j] == if table[j].source == m then Asserts(table[j], m, data) else Present(table, trace, j)
      ensures hard == Latched(table, trace, true) + Added(table, m, data, true, |table|)
      ensures soft == Latched(table, trace, false) + Added(table, m, data, false, |table|)
      ensures sent == Notifications(table, trace) + Edges(table, trace, m, data, |table|)
    {
      hide Latched, Added, Edges, Notifications, Present, Asserts;
      NothingYet(table, trace, m, data);
      for k := 0 to |table|
        invariant forall j :: k <= j < |table| ==> flags[j] == Present(table, trace, j)
        invariant forall j :: 0 <= j < k ==> flags[j] == if table[j].source == m then Asserts(table[j], m, data) else Present(table, trace, j)
        invariant hard == Latched(table, trace, true) + Added(table, m, data, true, k)
        invariant soft == Latched(table, trace, false) + Added(table, m, data, false, k)
        invariant sent == Notifications(table, trace) + Edges(table, trace, m, data, k)
      {
        LatchStep(table, trace, m, data, k, flags[k], true, hard);
        LatchStep(table, trace, m, data, k, flags[k], false, soft);
        EdgesNext(table, trace, m, data, k);
        AssertsSource(table[k], m, data);
        Check(k, m, data);
      }
    }

    /** The interlock part of CanCheck, for a status message of module m. */
    method StatusMessage(m: nat, data: Message)
      requires Valid()
      modifies this, flags
      ensures Valid() && trace == old(trace) + [Status(m, data)]
    {
      CheckAll(m, data);
      LatchedNext(table, trace, m, data, true);
      LatchedNext(table, trace, m, data, false);
      assert (trace + [Status(m, data)])[..|trace|] == trace;
      trace := trace + [Status(m, data)];
    }

    /** InterlockAlarmReset with InterlockStatusClear */
    method ResetInterlocks()
      requires Valid()
      modifies this, flags
      ensures Valid() && trace == old(trace) + [Reset] && hard == {} && soft == {}
    {
      Notify(RESET_INTERLOCKS);
      soft := {};
      hard := {};
      for k := 0 to flags.Length
        invariant forall j :: 0 <= j < k ==> !flags[j]
        invariant hard == {} && soft == {} && trace == old(trace) && sent == Notifications(table, trace) + [RESET_INTERLOCKS]
      {
        flags[k] := false;
      }
      assert (trace + [Reset])[..|trace|] == trace;
      trace := trace + [Reset];
    }

    /** A set flag has its bit latched. */
    lemma FlagIsLatched(k: nat)
      requires Valid() && k < |table| && flags[k]
      ensures table[k].latch in if table[k].hard then hard else soft
    {
      PresentIsAsserted(table, trace, k);
    }
  }

  /** One fault of a message: whether or not the edge is taken, the latch has the bit afterwards. */
  lemma {:induction false} LatchStep(table: seq<Fault>, trace: seq<Event>, m: nat, data: Message, k: nat, flag: bool, hard: bool, word: set<nat>)
    requires WellFormed(table) && k < |table|
    requires flag == Present(table, trace, k)
    requires word == Latched(table, trace, hard) + Added(table, m, data, hard, k)
    ensures (if table[k].hard == hard && Asserts(table[k], m, data) && !flag then word + {table[k].latch} else word)
         == Latched(table, trace, hard) + Added(table, m, data, hard, k + 1)
  {
    AddedNext(table, m, data, hard, k);
    PresentIsAsserted(table, trace, k);
  }

  /** Any run: the controller's state is determined by the trace alone. */
  method Run(faults: seq<Fault>, events: seq<Event>) returns (c: Controller)
    requires WellFormed(faults)
    ensures c.Valid() && c.table == faults && c.trace == events
  {
    c := new Controller(faults);
    for i := 0 to |events|
      invariant c.Valid() && c.table == faults && c.trace == events[..i] && fresh(c) && fresh(c.flags)
    {
      match events[i] {
        case Status(m, data) => c.StatusMessage(m, data);
        case Reset => c.ResetInterlocks();
      }
    }
  }
}
