/** The Mode Control Engine of fanctl: the four fan modes, the fixed ACPI
    payload table, the platform's privileged operations and the ordered
    write sequence each mode stands for.

    The operating system is modelled as a `Platform` object: every privileged
    operation is appended to its `trace`, and the outcome of each operation
    is read from its `hw` record, which the caller chooses. A call to
    `process::exit(1)` becomes an `Exit` outcome after which nothing more is
    done. */
module Backend {
  import opened Text

  datatype Option<T> = None | Some(value: T)

  datatype FanMode = Quiet | Balanced | Performance | GMode

  /** The command-line token of a mode: one non-empty lower-case word. */
  function AsStr(m: FanMode): (r: string)
    ensures |r| > 0
    ensures forall i :: 0 <= i < |r| ==> 'a' <= r[i] <= 'z'
  {
    match m
    case Quiet => "quiet"
    case Balanced => "balanced"
    case Performance => "performance"
    case GMode => "gmode"
  }

  /** The label shown to a user: capitalised, and never the token itself. */
  function DisplayName(m: FanMode): (r: string)
    ensures |r| > 0 && 'A' <= r[0] <= 'Z'
    ensures r != AsStr(m)
  {
    match m
    case Quiet => "Quiet"
    case Balanced => "Balanced"
    case Performance => "Performance"
    case GMode => "G-Mode"
  }

  lemma AsStrInjective(a: FanMode, b: FanMode)
    ensures AsStr(a) == AsStr(b) ==> a == b
  {
  }

  lemma DisplayNameInjective(a: FanMode, b: FanMode)
    ensures DisplayName(a) == DisplayName(b) ==> a == b
  {
  }

  // ---------------------------------------------------------------------
  // Fixed data for the Dell G15 family

  const ACPI_PATH := "/proc/acpi/call"

  const PERF_MODE := "\\_SB.AMW3.WMAX 0 0x15 {1, 0xa1, 0x00, 0x00}"
  const BALANCED_MODE := "\\_SB.AMW3.WMAX 0 0x15 {1, 0xa0, 0x00, 0x00}"
  const QUIET_MODE := "\\_SB.AMW3.WMAX 0 0x15 {1, 0xa3, 0x00, 0x00}"

  const GMODE_ON := "\\_SB.AMW3.WMAX 0 0x15 {1, 0xab, 0x00, 0x00}"
  const GMODE_OFF := "\\_SB.AMW3.WMAX 0 0x15 {1, 0xa0, 0x00, 0x00}"
  const GMODE_FLAG_ON := "\\_SB.AMW3.WMAX 0 0x25 {1, 0x01, 0x00, 0x00}"
  const GMODE_FLAG_OFF := "\\_SB.AMW3.WMAX 0 0x25 {1, 0x00, 0x00, 0x00}"

  const GMODE_QUERY := "\\_SB.AMW3.WMAX 0 0x14 {0x0b, 0x00, 0x00, 0x00}"

  /** The token whose presence in the read-back means G-Mode is engaged. */
  const GMODE_MARKER := "0xab"

  /** Turning G-Mode off sends the very payload that selects Balanced. */
  lemma GModeOffIsBalanced()
    ensures GMODE_OFF == BALANCED_MODE
  {
  }

  // ---------------------------------------------------------------------
  // The platform

  /** One directory listed under /sys/devices/system/cpu/cpufreq: its name,
      whether it has a `scaling_governor` node, and whether writing that
      node succeeds. */
  datatype PolicyEntry = PolicyEntry(name: string, hasGovernorNode: bool, writeOk: bool)

  /** Everything the platform answers: the ACPI payloads whose write fails,
      what reading the ACPI interface yields (`None`: the read fails), and
      the cpufreq listing (`None`: the base directory cannot be read). */
  datatype Hardware = Hardware(
    rejected: set<string>,
    readBack: Option<string>,
    cpufreq: Option<seq<PolicyEntry>>)

  /** A privileged operation as the operating system sees it. */
  datatype Op =
    | AcpiWrite(payload: string)
    | AcpiRead
    | ListCpufreq
    | GovernorWrite(policy: string, governor: string)

  /** Why the process exits with status 1. */
  datatype Failure = AcpiUnwritable | CpufreqUnavailable | NoPolicyApplied

  datatype Outcome = Ok | Exit(reason: Failure)

  /** The diagnostic printed before exiting: only the ACPI failure is an
      "Error:" line, and it names the ACPI interface it could not write. */
  function Message(f: Failure): (r: string)
    ensures StartsWith(r, "Error: ") <==> f == AcpiUnwritable
    ensures f == AcpiUnwritable ==> |r| >= |ACPI_PATH| && r[|r| - |ACPI_PATH|..] == ACPI_PATH
  {
    match f
    case AcpiUnwritable => "Error: unable to write to " + ACPI_PATH
    case CpufreqUnavailable =>
      var r := "cpufreq not available";
      assert r[0] != "Error: "[0];
      r
    case NoPolicyApplied =>
      var r := "No CPU policy found";
      assert r[1] != "Error: "[1];
      r
  }

  /** The operations an action issues and how it ends. */
  datatype Run = Run(ops: seq<Op>, outcome: Outcome)

  class Platform {
    var hw: Hardware
    var trace: seq<Op>

    constructor (hw: Hardware)
      ensures this.hw == hw && trace == []
    {
      this.hw := hw;
      trace := [];
    }

    /** `fs::write(ACPI_PATH, payload)`. */
    method AcpiCall(payload: string) returns (ok: bool)
      modifies this`trace
      ensures ok <==> payload !in hw.rejected
      ensures trace == old(trace) + [AcpiWrite(payload)]
    {
      ok := payload !in hw.rejected;
      trace := trace + [AcpiWrite(payload)];
    }

    /** `fs::read_to_string(ACPI_PATH)`. */
    method ReadAcpi() returns (content: Option<string>)
      modifies this`trace
      ensures content == hw.readBack
      ensures trace == old(trace) + [AcpiRead]
    {
      content := hw.readBack;
      trace := trace + [AcpiRead];
    }

    /** `fs::read_dir` of the cpufreq base directory. */
    method ReadCpufreq() returns (entries: Option<seq<PolicyEntry>>)
      modifies this`trace
      ensures entries == hw.cpufreq
      ensures trace == old(trace) + [ListCpufreq]
    {
      entries := hw.cpufreq;
      trace := trace + [ListCpufreq];
    }

    /** `fs::write` of a governor name into a policy's `scaling_governor`. */
    method WriteGovernor(entry: PolicyEntry, governor: string) returns (ok: bool)
      modifies this`trace
      ensures ok == entry.writeOk
      ensures trace == old(trace) + [GovernorWrite(entry.name, governor)]
    {
      ok := entry.writeOk;
      trace := trace + [GovernorWrite(entry.name, governor)];
    }
  }

  // ---------------------------------------------------------------------
  // What each action does, as functions of the hardware

  /** The ACPI writes of `payloads`, in order. */
  function Writes(payloads: seq<string>): seq<Op>
  {
    seq(|payloads|, i requires 0 <= i < |payloads| => AcpiWrite(payloads[i]))
  }

  /** Writing one list of payloads and then another issues the writes of
      their concatenation. */
  lemma WritesConcat(a: seq<string>, b: seq<string>)
    ensures Writes(a + b) == Writes(a) + Writes(b)
  {
    forall i | 0 <= i < |a| + |b|
      ensures Writes(a + b)[i] == (Writes(a) + Writes(b))[i]
    {
      if i >= |a| { assert (a + b)[i] == b[i - |a|]; }
    }
  }

  /** Writing `payloads` one by one with `acpi_call_or_exit`: the first
      rejected payload is written, then the process exits. */
  function WriteAcpi(payloads: seq<string>, rejected: set<string>): Run
  {
    if payloads == [] then Run([], Ok)
    else if payloads[0] in rejected then Run([AcpiWrite(payloads[0])], Exit(AcpiUnwritable))
    else
      var rest := WriteAcpi(payloads[1..], rejected);
      Run([AcpiWrite(payloads[0])] + rest.ops, rest.outcome)
  }

  /** A policy directory `set_governor` writes to. */
  predicate Eligible(e: PolicyEntry) {
    StartsWith(e.name, "policy") && e.hasGovernorNode
  }

  /** The governor writes issued while scanning `entries` in order. */
  function PolicyWrites(entries: seq<PolicyEntry>, governor: string): seq<Op>
  {
    if entries == [] then []
    else
      var last := entries[|entries| - 1];
      PolicyWrites(entries[..|entries| - 1], governor)
        + (if Eligible(last) then [GovernorWrite(last.name, governor)] else [])
  }

  /** The `applied` flag after scanning `entries` in order. */
  function Applied(entries: seq<PolicyEntry>): bool
  {
    if entries == [] then false
    else
      var last := entries[|entries| - 1];
      Applied(entries[..|entries| - 1]) || (Eligible(last) && last.writeOk)
  }

  /** `set_governor(governor)` against the listing `cpufreq`. */
  function GovernorRun(cpufreq: Option<seq<PolicyEntry>>, governor: string): Run
  {
    match cpufreq
    case None => Run([ListCpufreq], Exit(CpufreqUnavailable))
    case Some(entries) =>
      Run([ListCpufreq] + PolicyWrites(entries, governor),
          if Applied(entries) then Ok else Exit(NoPolicyApplied))
  }

  /** The fixed action sequence of a mode: ACPI payloads, then one governor. */
  datatype Plan = Plan(payloads: seq<string>, governor: string)

  /** The sequence for `mode`; `gmodeOn` (the queried bit) only matters for
      G-Mode, which is a toggle. */
  function PlanFor(mode: FanMode, gmodeOn: bool): (p: Plan)
    ensures p.governor == "powersave" || p.governor == "performance"
    ensures |p.payloads| == if mode == GMode then 2 else 1
    ensures forall i, j :: 0 <= i < j < |p.payloads| ==> p.payloads[i] != p.payloads[j]
    ensures GMODE_QUERY !in p.payloads
  {
    match mode
    case Quiet => Plan([QUIET_MODE], "powersave")
    case Balanced => Plan([BALANCED_MODE], "powersave")
    case Performance => Plan([PERF_MODE], "performance")
    case GMode =>
      if gmodeOn then Plan([GMODE_OFF, GMODE_FLAG_OFF], "powersave")
      else Plan([GMODE_ON, GMODE_FLAG_ON], "performance")
  }

  /** Running a plan: the ACPI writes, then, if none failed, the governor. */
  function Execute(plan: Plan, hw: Hardware): Run
  {
    var acpi := WriteAcpi(plan.payloads, hw.rejected);
    if acpi.outcome.Exit? then acpi
    else
      var gov := GovernorRun(hw.cpufreq, plan.governor);
      Run(acpi.ops + gov.ops, gov.outcome)
  }

  /** What `is_gmode_on` reads back: an unreadable interface reads as "". */
  function ReadText(readBack: Option<string>): string {
    match readBack
    case None => ""
    case Some(s) => s
  }

  /** The operations of `is_gmode_on`: the query write, and the read-back
      only if that write succeeded. */
  function QueryOps(hw: Hardware): seq<Op> {
    if GMODE_QUERY in hw.rejected then [AcpiWrite(GMODE_QUERY)]
    else [AcpiWrite(GMODE_QUERY), AcpiRead]
  }

  /** The answer of `is_gmode_on`. */
  predicate GModeQuery(hw: Hardware) {
    GMODE_QUERY !in hw.rejected && Contains(ReadText(hw.readBack), GMODE_MARKER)
  }

  /** `apply_mode(mode)`: G-Mode queries the bit first, then toggles. */
  function ApplyRun(mode: FanMode, hw: Hardware): Run
  {
    if mode == GMode then
      var r := Execute(PlanFor(GMode, GModeQuery(hw)), hw);
      Run(QueryOps(hw) + r.ops, r.outcome)
    else
      Execute(PlanFor(mode, false), hw)
  }

  /** A single `acpi_call_or_exit`. */
  lemma WriteOne(payload: string, rejected: set<string>)
    ensures WriteAcpi([payload], rejected) ==
      Run([AcpiWrite(payload)], if payload in rejected then Exit(AcpiUnwritable) else Ok)
  {
  }

  /** A plan of two payloads, unfolded: it stops after the first rejected
      write, and runs the governor only when both were accepted. */
  lemma ExecutePair(first: string, second: string, governor: string, hw: Hardware)
    ensures Execute(Plan([first, second], governor), hw) ==
      if first in hw.rejected then Run([AcpiWrite(first)], Exit(AcpiUnwritable))
      else if second in hw.rejected then Run([AcpiWrite(first), AcpiWrite(second)], Exit(AcpiUnwritable))
      else Run([AcpiWrite(first), AcpiWrite(second)] + GovernorRun(hw.cpufreq, governor).ops,
               GovernorRun(hw.cpufreq, governor).outcome)
  {
    var rejected := hw.rejected;
    assert [second][1..] == [];
    assert WriteAcpi([second], rejected) ==
      Run([AcpiWrite(second)], if second in rejected then Exit(AcpiUnwritable) else Ok);
    assert [first, second][1..] == [second];
  }

  // ---------------------------------------------------------------------
  // The operations

  method AcpiCallOrExit(sys: Platform, payload: string) returns (o: Outcome)
    modifies sys`trace
    ensures sys.trace == old(sys.trace) + [AcpiWrite(payload)]
    ensures o == if payload in sys.hw.rejected then Exit(AcpiUnwritable) else Ok
  {
    var ok := sys.AcpiCall(payload);
    if !ok {
      return Exit(AcpiUnwritable);
    }
    o := Ok;
  }

  method SetGovernor(sys: Platform, governor: string) returns (o: Outcome)
    modifies sys`trace
    ensures sys.trace == old(sys.trace) + GovernorRun(sys.hw.cpufreq, governor).ops
    ensures o == GovernorRun(sys.hw.cpufreq, governor).outcome
  {
    var listing := sys.ReadCpufreq();
    if listing.None? {
      return Exit(CpufreqUnavailable);
    }
    var entries := listing.value;
    var applied := false;
    var i := 0;
    while i < |entries|
      invariant 0 <= i <= |entries|
      invariant sys.trace == old(sys.trace) + [ListCpufreq] + PolicyWrites(entries[..i], governor)
      invariant applied == Applied(entries[..i])
    {
      var entry := entries[i];
      assert entries[..i + 1][..i] == entries[..i];
      if StartsWith(entry.name, "policy") && entry.hasGovernorNode {
        var ok := sys.WriteGovernor(entry, governor);
        if ok {
          applied := true;
        }
      }
      i := i + 1;
    }
    assert entries[..i] == entries;
    o := if applied then Ok else Exit(NoPolicyApplied);
  }

  method SetQuiet(sys: Platform) returns (o: Outcome)
    modifies sys`trace
    ensures sys.trace == old(sys.trace) + ApplyRun(Quiet, sys.hw).ops
    ensures o == ApplyRun(Quiet, sys.hw).outcome
  {
    WriteOne(QUIET_MODE, sys.hw.rejected);
    o := AcpiCallOrExit(sys, QUIET_MODE);
    if o.Exit? {
      return;
    }
    o := SetGovernor(sys, "powersave");
  }

  method SetBalanced(sys: Platform) returns (o: Outcome)
    modifies sys`trace
    ensures sys.trace == old(sys.trace) + ApplyRun(Balanced, sys.hw).ops
    ensures o == ApplyRun(Balanced, sys.hw).outcome
  {
    WriteOne(BALANCED_MODE, sys.hw.rejected);
    o := AcpiCallOrExit(sys, BALANCED_MODE);
    if o.Exit? {
      return;
    }
    o := SetGovernor(sys, "powersave");
  }

  method SetPerformance(sys: Platform) returns (o: Outcome)
    modifies sys`trace
    ensures sys.trace == old(sys.trace) + ApplyRun(Performance, sys.hw).ops
    ensures o == ApplyRun(Performance, sys.hw).outcome
  {
    WriteOne(PERF_MODE, sys.hw.rejected);
    o := AcpiCallOrExit(sys, PERF_MODE);
    if o.Exit? {
      return;
    }
    o := SetGovernor(sys, "performance");
  }

  method IsGModeOn(sys: Platform) returns (on: bool)
    modifies sys`trace
    ensures on == GModeQuery(sys.hw)
    ensures sys.trace == old(sys.trace) + QueryOps(sys.hw)
  {
    var ok := sys.AcpiCall(GMODE_QUERY);
    if !ok {
      return false;
    }
    var content := sys.ReadAcpi();
    var output := if content.Some? then content.value else "";
    on := Contains(output, GMODE_MARKER);
  }

  method ToggleGMode(sys: Platform) returns (o: Outcome)
    modifies sys`trace
    ensures sys.trace == old(sys.trace) + ApplyRun(GMode, sys.hw).ops
    ensures o == ApplyRun(GMode, sys.hw).outcome
  {
    var on := IsGModeOn(sys);
    if on {
      ExecutePair(GMODE_OFF, GMODE_FLAG_OFF, "powersave", sys.hw);
      o := AcpiCallOrExit(sys, GMODE_OFF);
      if o.Exit? {
        return;
      }
      o := AcpiCallOrExit(sys, GMODE_FLAG_OFF);
      if o.Exit? {
        return;
      }
      o := SetGovernor(sys, "powersave");
    } else {
      ExecutePair(GMODE_ON, GMODE_FLAG_ON, "performance", sys.hw);
      o := AcpiCallOrExit(sys, GMODE_ON);
      if o.Exit? {
        return;
      }
      o := AcpiCallOrExit(sys, GMODE_FLAG_ON);
      if o.Exit? {
        return;
      }
      o := SetGovernor(sys, "performance");
    }
  }

  method ApplyMode(sys: Platform, mode: FanMode) returns (o: Outcome)
    modifies sys`trace
    ensures sys.trace == old(sys.trace) + ApplyRun(mode, sys.hw).ops
    ensures o == ApplyRun(mode, sys.hw).outcome
  {
    match mode
    case Quiet => o := SetQuiet(sys);
    case Balanced => o := SetBalanced(sys);
    case Performance => o := SetPerformance(sys);
    case GMode => o := ToggleGMode(sys);
  }
}

/** Properties of the engine's action sequences. */
module BackendFacts {
  import opened Text
  import opened Backend

  /** `payloads[k]` is the first payload of `payloads` that is rejected. */
  predicate FirstRejected(payloads: seq<string>, rejected: set<string>, k: int) {
    0 <= k < |payloads| && payloads[k] in rejected
    && forall i :: 0 <= i < k ==> payloads[i] !in rejected
  }

  /** `acpi_call_or_exit` in sequence: when no payload is rejected all are
      written and the run continues; otherwise the writes stop right after
      the first rejected payload, and the process exits. */
  lemma {:induction false} WriteAcpiAborts(payloads: seq<string>, rejected: set<string>)
    ensures var r := WriteAcpi(payloads, rejected);
      (r.outcome == Ok <==> forall i :: 0 <= i < |payloads| ==> payloads[i] !in rejected)
      && (r.outcome == Ok ==> r.ops == Writes(payloads))
      && (r.outcome != Ok ==>
            r.outcome == Exit(AcpiUnwritable)
            && exists k :: FirstRejected(payloads, rejected, k) && r.ops == Writes(payloads[..k + 1]))
  {
    if payloads == [] {
    } else if payloads[0] in rejected {
      assert FirstRejected(payloads, rejected, 0);
      assert payloads[..1] == [payloads[0]];
    } else {
      var tail := payloads[1..];
      WriteAcpiAborts(tail, rejected);
      var rest := WriteAcpi(tail, rejected);
      assert WriteAcpi(payloads, rejected) == Run([AcpiWrite(payloads[0])] + rest.ops, rest.outcome);
      if rest.outcome == Ok {
        assert forall i :: 0 <= i < |payloads| ==> payloads[i] !in rejected by {
          forall i | 0 <= i < |payloads| ensures payloads[i] !in rejected {
            if i > 0 { assert payloads[i] == tail[i - 1]; }
          }
        }
        assert payloads == [payloads[0]] + tail;
        WritesConcat([payloads[0]], tail);
      } else {
        var k :| FirstRejected(tail, rejected, k) && rest.ops == Writes(tail[..k + 1]);
        assert payloads[k + 1] == tail[k];
        assert FirstRejected(payloads, rejected, k + 1) by {
          forall i | 0 <= i < k + 1 ensures payloads[i] !in rejected {
            if i > 0 { assert payloads[i] == tail[i - 1]; }
          }
        }
        assert payloads[..k + 2] == [payloads[0]] + tail[..k + 1];
        WritesConcat([payloads[0]], tail[..k + 1]);
      }
    }
  }

  /** A rejected ACPI write ends the plan: the governor is never touched
      (no cpufreq listing, no governor write) and the process exits. When
      every write succeeds they all stay in effect whatever the governor
      step then reports. */
  lemma ExecuteOrder(plan: Plan, hw: Hardware)
    ensures (exists i :: 0 <= i < |plan.payloads| && plan.payloads[i] in hw.rejected) ==>
      && Execute(plan, hw).outcome == Exit(AcpiUnwritable)
      && forall k :: 0 <= k < |Execute(plan, hw).ops| ==> Execute(plan, hw).ops[k].AcpiWrite?
    ensures (forall i :: 0 <= i < |plan.payloads| ==> plan.payloads[i] !in hw.rejected) ==>
      Execute(plan, hw) == Run(Writes(plan.payloads) + GovernorRun(hw.cpufreq, plan.governor).ops,
                               GovernorRun(hw.cpufreq, plan.governor).outcome)
  {
    WriteAcpiAborts(plan.payloads, hw.rejected);
  }

  /** `set_governor` writes exactly the eligible policies: every write goes
      to an entry named "policy…" that has a `scaling_governor` node, every
      such entry is written, and each write carries the requested governor. */
  lemma {:induction false} PolicyWritesTargets(entries: seq<PolicyEntry>, governor: string)
    ensures |PolicyWrites(entries, governor)| <= |entries|
    ensures forall k :: 0 <= k < |PolicyWrites(entries, governor)| ==>
      var op := PolicyWrites(entries, governor)[k];
      op.GovernorWrite? && op.governor == governor
      && exists i :: 0 <= i < |entries| && Eligible(entries[i]) && entries[i].name == op.policy
    ensures forall i :: 0 <= i < |entries| && Eligible(entries[i]) ==>
      GovernorWrite(entries[i].name, governor) in PolicyWrites(entries, governor)
  {
    if entries != [] {
      var init := entries[..|entries| - 1];
      PolicyWritesTargets(init, governor);
      assert forall i :: 0 <= i < |init| ==> init[i] == entries[i];
    }
  }

  /** The `applied` flag is set exactly when some eligible policy accepted
      the write: partial failures are tolerated. */
  lemma {:induction false} AppliedIff(entries: seq<PolicyEntry>)
    ensures Applied(entries) <==>
      exists i :: 0 <= i < |entries| && Eligible(entries[i]) && entries[i].writeOk
  {
    if entries != [] {
      var init := entries[..|entries| - 1];
      AppliedIff(init);
      assert forall i :: 0 <= i < |init| ==> init[i] == entries[i];
    }
  }

  /** `set_governor` succeeds exactly when the base directory is readable
      and at least one eligible policy accepted the write; otherwise it exits. */
  lemma GovernorRunSucceedsIff(cpufreq: Option<seq<PolicyEntry>>, governor: string)
    ensures GovernorRun(cpufreq, governor).outcome == Ok <==>
      cpufreq.Some? &&
      exists i :: 0 <= i < |cpufreq.value| && Eligible(cpufreq.value[i]) && cpufreq.value[i].writeOk
    ensures cpufreq.None? ==>
      GovernorRun(cpufreq, governor) == Run([ListCpufreq], Exit(CpufreqUnavailable))
    ensures cpufreq.Some? && GovernorRun(cpufreq, governor).outcome != Ok ==>
      GovernorRun(cpufreq, governor).outcome == Exit(NoPolicyApplied)
  {
    if cpufreq.Some? {
      AppliedIff(cpufreq.value);
    }
  }

  /** Quiet, Balanced and Performance: one ACPI write with the mode's
      payload, then one governor step; if the write fails, nothing else. */
  lemma FixedModeTraces(hw: Hardware)
    ensures ApplyRun(Quiet, hw) ==
      if QUIET_MODE in hw.rejected then Run([AcpiWrite(QUIET_MODE)], Exit(AcpiUnwritable))
      else Run([AcpiWrite(QUIET_MODE)] + GovernorRun(hw.cpufreq, "powersave").ops,
               GovernorRun(hw.cpufreq, "powersave").outcome)
    ensures ApplyRun(Balanced, hw) ==
      if BALANCED_MODE in hw.rejected then Run([AcpiWrite(BALANCED_MODE)], Exit(AcpiUnwritable))
      else Run([AcpiWrite(BALANCED_MODE)] + GovernorRun(hw.cpufreq, "powersave").ops,
               GovernorRun(hw.cpufreq, "powersave").outcome)
    ensures ApplyRun(Performance, hw) ==
      if PERF_MODE in hw.rejected then Run([AcpiWrite(PERF_MODE)], Exit(AcpiUnwritable))
      else Run([AcpiWrite(PERF_MODE)] + GovernorRun(hw.cpufreq, "performance").ops,
               GovernorRun(hw.cpufreq, "performance").outcome)
  {
    WriteOne(QUIET_MODE, hw.rejected);
    WriteOne(BALANCED_MODE, hw.rejected);
    WriteOne(PERF_MODE, hw.rejected);
  }

  /** The fixed modes never look at the G-Mode bit: applying one of them
      again, whatever the bit now reads, issues the same operations with the
      same outcome. */
  lemma FixedModesIgnoreGModeBit(mode: FanMode, hw: Hardware, readBack: Option<string>)
    requires mode != GMode
    ensures ApplyRun(mode, hw.(readBack := readBack)) == ApplyRun(mode, hw)
  {
  }

  /** `is_gmode_on`: false when the query write fails; otherwise true
      exactly when the read-back holds "0xab", an unreadable interface
      counting as empty text. */
  lemma GModeQueryCases(hw: Hardware)
    ensures GMODE_QUERY in hw.rejected ==> !GModeQuery(hw) && QueryOps(hw) == [AcpiWrite(GMODE_QUERY)]
    ensures GMODE_QUERY !in hw.rejected && hw.readBack.None? ==> !GModeQuery(hw)
    ensures GMODE_QUERY !in hw.rejected && hw.readBack.Some? ==>
      (GModeQuery(hw) <==> exists i :: OccursAt(hw.readBack.value, GMODE_MARKER, i))
  {
  }

  /** G-Mode queries before any write, then toggles: if the bit reads on,
      the writes are GMODE_OFF, GMODE_FLAG_OFF and "powersave"; otherwise
      GMODE_ON, GMODE_FLAG_ON and "performance". */
  lemma GModeToggleTraces(hw: Hardware)
    ensures ApplyRun(GMode, hw).ops[0] == AcpiWrite(GMODE_QUERY)
    ensures GModeQuery(hw) && GMODE_OFF !in hw.rejected && GMODE_FLAG_OFF !in hw.rejected ==>
      ApplyRun(GMode, hw) ==
        Run([AcpiWrite(GMODE_QUERY), AcpiRead, AcpiWrite(GMODE_OFF), AcpiWrite(GMODE_FLAG_OFF)]
              + GovernorRun(hw.cpufreq, "powersave").ops,
            GovernorRun(hw.cpufreq, "powersave").outcome)
    ensures !GModeQuery(hw) && GMODE_ON !in hw.rejected && GMODE_FLAG_ON !in hw.rejected ==>
      ApplyRun(GMode, hw) ==
        Run(QueryOps(hw) + [AcpiWrite(GMODE_ON), AcpiWrite(GMODE_FLAG_ON)]
              + GovernorRun(hw.cpufreq, "performance").ops,
            GovernorRun(hw.cpufreq, "performance").outcome)
  {
    var plan := PlanFor(GMode, GModeQuery(hw));
    ExecuteOrder(plan, hw);
  }

  /** Two successive G-Mode applications, the interface reporting the marker
      before the first and not before the second, issue opposite sequences:
      first off with "powersave", then on with "performance". */
  lemma GModeSuccessiveToggles(hw: Hardware, s1: string, s2: string)
    requires GMODE_QUERY !in hw.rejected
    requires forall p :: p in [GMODE_ON, GMODE_OFF, GMODE_FLAG_ON, GMODE_FLAG_OFF] ==> p !in hw.rejected
    requires Contains(s1, GMODE_MARKER) && !Contains(s2, GMODE_MARKER)
    ensures ApplyRun(GMode, hw.(readBack := Some(s1))) ==
      Run([AcpiWrite(GMODE_QUERY), AcpiRead, AcpiWrite(GMODE_OFF), AcpiWrite(GMODE_FLAG_OFF)]
            + GovernorRun(hw.cpufreq, "powersave").ops,
          GovernorRun(hw.cpufreq, "powersave").outcome)
    ensures ApplyRun(GMode, hw.(readBack := Some(s2))) ==
      Run([AcpiWrite(GMODE_QUERY), AcpiRead, AcpiWrite(GMODE_ON), AcpiWrite(GMODE_FLAG_ON)]
            + GovernorRun(hw.cpufreq, "performance").ops,
          GovernorRun(hw.cpufreq, "performance").outcome)
  {
    GModeToggleTraces(hw.(readBack := Some(s1)));
    GModeToggleTraces(hw.(readBack := Some(s2)));
  }
}
