/** nova's instance update notifications: the notify_on_state_change gate of
    send_update and send_update_with_states, the state fields of the payload, the
    publisher ids of the legacy and the versioned notification, the null-safe
    instance info, the monthly audit period, and the swallowing of the exceptions a
    send raises. The notifier that records what was emitted is a class whose lists
    the sends extend; the outcome of the code this module cannot see (database
    lookups, the message transport) is a parameter. */
module Notifications {
  import opened Wrappers
  import opened Text

  // ---------------------------------------------------------------------------
  // Configuration

  /** [notifications] notify_on_state_change: unset (None), "vm_state" or
      "vm_and_task_state". */
  datatype StateChangeOption = Unset | VmState | VmAndTaskState

  /** The configuration the module reads: the option above and [DEFAULT] host. */
  datatype Config = Config(notifyOnStateChange: StateChangeOption, host: string)

  predicate Enabled(conf: Config) {
    conf.notifyOnStateChange != Unset
  }

  // ---------------------------------------------------------------------------
  // Timestamps

  /** The fields of a datetime.datetime. */
  datatype Timestamp = Timestamp(year: int, month: int, day: int, hour: int, minute: int,
                                 second: int, microsecond: int)

  /** The ranges datetime.datetime enforces (the day is only bounded by 31). */
  predicate ValidTimestamp(t: Timestamp) {
    && 1 <= t.year <= 9999 && 1 <= t.month <= 12 && 1 <= t.day <= 31
    && 0 <= t.hour < 24 && 0 <= t.minute < 60 && 0 <= t.second < 60
    && 0 <= t.microsecond < 1000000
  }

  type DateTime = t: Timestamp | ValidTimestamp(t) witness Timestamp(1970, 1, 1, 0, 0, 0, 0)

  /** a < b for datetimes: by year, then month, day, hour, minute, second, microsecond. */
  predicate Before(a: Timestamp, b: Timestamp) {
    || a.year < b.year
    || (a.year == b.year && a.month < b.month)
    || (a.year == b.year && a.month == b.month && a.day < b.day)
    || (a.year == b.year && a.month == b.month && a.day == b.day && TimeBefore(a, b))
  }

  predicate TimeBefore(a: Timestamp, b: Timestamp) {
    || a.hour < b.hour
    || (a.hour == b.hour && a.minute < b.minute)
    || (a.hour == b.hour && a.minute == b.minute && a.second < b.second)
    || (a.hour == b.hour && a.minute == b.minute && a.second == b.second
        && a.microsecond < b.microsecond)
  }

  /** Midnight of the first day of a month. */
  predicate IsMonthStart(t: Timestamp) {
    t.day == 1 && t.hour == 0 && t.minute == 0 && t.second == 0 && t.microsecond == 0
  }

  function MonthStart(year: int, month: int): (r: Timestamp)
    ensures IsMonthStart(r) && r.year == year && r.month == month
  {
    Timestamp(year, month, 1, 0, 0, 0, 0)
  }

  /** The month before (year, month), January wrapping to December of the year before. */
  function PreviousMonth(year: int, month: int): (r: (int, int))
    requires 1 <= month <= 12
    ensures 1 <= r.1 <= 12
    ensures month == 1 ==> r == (year - 1, 12)
    ensures month > 1 ==> r == (year, month - 1)
  {
    if 1 >= month then (year - 1, 12 + (month - 1)) else (year, month - 1)
  }

  /** last_completed_audit_period for the unit "month" with no offset: the period
      ends at the latest start of a month before now and begins one month earlier.
      datetime() raises ValueError (None here) when the period would begin before
      year 1. */
  function LastCompletedMonth(now: DateTime): Option<(DateTime, DateTime)> {
    var thisMonth := MonthStart(now.year, now.month);
    var endAt :=
      if !Before(thisMonth, now) then
        var p := PreviousMonth(now.year, now.month);
        MonthStart(p.0, p.1)
      else thisMonth;
    var b := PreviousMonth(endAt.year, endAt.month);
    var beginAt := MonthStart(b.0, b.1);
    if beginAt.year < 1 then None else Some((beginAt, endAt))
  }

  /** audit_period_bounds: the last completed period, or with currentPeriod the time
      from its end until now. */
  function AuditPeriodBounds(now: DateTime, currentPeriod: bool): Option<(DateTime, DateTime)> {
    var p := LastCompletedMonth(now);
    if p.None? then None
    else if currentPeriod then Some((p.value.1, now))
    else p
  }

  /** The period ends at the latest month start before now. */
  lemma LastCompletedMonthEnd(now: DateTime)
    ensures var r := LastCompletedMonth(now);
            r.Some? ==>
              && IsMonthStart(r.value.1) && Before(r.value.1, now)
              && forall m: Timestamp :: IsMonthStart(m) && 1 <= m.month <= 12 && Before(m, now)
                   ==> !Before(r.value.1, m)
  {
  }

  /** The period is one whole month: it begins at a month start and no month starts
      after its beginning and before its end. */
  lemma LastCompletedMonthWhole(now: DateTime)
    ensures var r := LastCompletedMonth(now);
            r.Some? ==>
              && IsMonthStart(r.value.0) && Before(r.value.0, r.value.1)
              && forall m: Timestamp :: IsMonthStart(m) && 1 <= m.month <= 12 && Before(r.value.0, m)
                   ==> !Before(m, r.value.1)
  {
  }

  /** Only a now in January of year 1, or at the very start of February of year 1,
      leaves no whole month before it. */
  lemma LastCompletedMonthErrors(now: DateTime)
    ensures LastCompletedMonth(now).None? <==>
              now.year == 1 && (now.month == 1 || (now.month == 2 && IsMonthStart(now)))
  {
  }

  // ---------------------------------------------------------------------------
  // strtime: "%Y-%m-%dT%H:%M:%S.%f"

  function Pow10(w: nat): (r: nat)
    ensures r >= 1
  {
    if w == 0 then 1 else 10 * Pow10(w - 1)
  }

  function Zeros(k: nat): (r: string)
    ensures |r| == k && forall i :: 0 <= i < k ==> r[i] == '0'
  {
    seq(k, _ => '0')
  }

  /** n in decimal, left-padded with zeros to width digits. */
  function Pad(n: nat, width: nat): (r: string)
    ensures AllDecDigits(r) && r != []
  {
    var s := NatToString(n);
    var z := Zeros(if |s| < width then width - |s| else 0);
    assert forall i :: 0 <= i < |z + s| ==> IsDecDigit((z + s)[i]) by {
      forall i | 0 <= i < |z + s| ensures IsDecDigit((z + s)[i]) {
        if i >= |z| {
          assert (z + s)[i] == s[i - |z|];
        }
      }
    }
    z + s
  }

  /** A number below 10^width has at most width digits. */
  lemma {:induction false} NatToStringLength(n: nat, width: nat)
    requires 1 <= width && n < Pow10(width)
    ensures |NatToString(n)| <= width
  {
    if n >= 10 {
      NatToStringLength(n / 10, width - 1);
    }
  }

  lemma PadLength(n: nat, width: nat)
    requires 1 <= width && n < Pow10(width)
    ensures |Pad(n, width)| == width
  {
    NatToStringLength(n, width);
  }

  /** Leading zeros do not change the value of a string of digits. */
  lemma {:induction false} LeadingZerosValue(k: nat, s: string)
    requires AllDecDigits(s)
    ensures AllDecDigits(Zeros(k) + s) && DigitsValue(Zeros(k) + s) == DigitsValue(s)
  {
    var t := Zeros(k) + s;
    assert AllDecDigits(t) by {
      forall i | 0 <= i < |t| ensures IsDecDigit(t[i]) {
        if i >= k {
          assert t[i] == s[i - k];
        }
      }
    }
    if s == [] {
      assert t == Zeros(k);
      ZerosValue(k);
    } else {
      assert t[..|t| - 1] == Zeros(k) + s[..|s| - 1];
      LeadingZerosValue(k, s[..|s| - 1]);
    }
  }

  lemma {:induction false} ZerosValue(k: nat)
    ensures AllDecDigits(Zeros(k)) && DigitsValue(Zeros(k)) == 0
  {
    if k > 0 {
      assert Zeros(k)[..k - 1] == Zeros(k - 1);
      ZerosValue(k - 1);
    }
  }

  /** Reading back a padded number gives the number. */
  lemma PadValue(n: nat, width: nat)
    ensures DigitsValue(Pad(n, width)) == n
  {
    var s := NatToString(n);
    LeadingZerosValue(if |s| < width then width - |s| else 0, s);
    NatToStringValue(n);
  }

  /** One field of a formatted time: its value, its width, and the text after it. */
  datatype TimeField = TimeField(value: nat, width: nat, sep: string)

  predicate Fits(f: TimeField) {
    1 <= f.width && f.value < Pow10(f.width)
  }

  function FormatFields(fs: seq<TimeField>): string {
    if fs == [] then [] else Pad(fs[0].value, fs[0].width) + fs[0].sep + FormatFields(fs[1..])
  }

  /** The fields of "%Y-%m-%dT%H:%M:%S.%f". */
  function IsoFields(t: DateTime): (r: seq<TimeField>)
    ensures |r| == 7 && forall i :: 0 <= i < 7 ==> Fits(r[i])
  {
    [TimeField(t.year, 4, "-"), TimeField(t.month, 2, "-"), TimeField(t.day, 2, "T"),
     TimeField(t.hour, 2, ":"), TimeField(t.minute, 2, ":"), TimeField(t.second, 2, "."),
     TimeField(t.microsecond, 6, "")]
  }

  /** utils.strtime(t). Years are always written with four digits. */
  function IsoTime(t: DateTime): (r: string)
    ensures r != []
  {
    FormatFields(IsoFields(t))
  }

  lemma SplitAt(x1: string, y1: string, x2: string, y2: string)
    requires x1 + y1 == x2 + y2 && |x1| == |x2|
    ensures x1 == x2 && y1 == y2
  {
    assert x1 == (x1 + y1)[..|x1|];
    assert x2 == (x2 + y2)[..|x2|];
    assert y1 == (x1 + y1)[|x1|..];
    assert y2 == (x2 + y2)[|x2|..];
  }

  /** A first field of fixed width and separator is recovered, with the rest. */
  lemma FormatFieldsHead(f: TimeField, g: TimeField, rf: string, rg: string)
    requires Fits(f) && Fits(g) && f.width == g.width && f.sep == g.sep
    requires Pad(f.value, f.width) + f.sep + rf == Pad(g.value, g.width) + g.sep + rg
    ensures f.value == g.value && rf == rg
  {
    var x := Pad(f.value, f.width);
    var y := Pad(g.value, g.width);
    PadLength(f.value, f.width);
    PadLength(g.value, g.width);
    assert x + f.sep + rf == x + (f.sep + rf);
    assert y + g.sep + rg == y + (g.sep + rg);
    SplitAt(x, f.sep + rf, y, g.sep + rg);
    SplitAt(f.sep, rf, g.sep, rg);
    PadValue(f.value, f.width);
    PadValue(g.value, g.width);
  }

  /** Fields of fixed widths and separators are recovered from their formatting. */
  lemma {:induction false} FormatFieldsInjective(fs: seq<TimeField>, gs: seq<TimeField>)
    requires |fs| == |gs|
    requires forall i :: 0 <= i < |fs| ==>
               Fits(fs[i]) && Fits(gs[i]) && fs[i].width == gs[i].width && fs[i].sep == gs[i].sep
    requires FormatFields(fs) == FormatFields(gs)
    ensures forall i :: 0 <= i < |fs| ==> fs[i].value == gs[i].value
  {
    if fs != [] {
      FormatFieldsHead(fs[0], gs[0], FormatFields(fs[1..]), FormatFields(gs[1..]));
      FormatFieldsInjective(fs[1..], gs[1..]);
      forall i | 1 <= i < |fs| ensures fs[i].value == gs[i].value {
        assert fs[1..][i - 1] == fs[i] && gs[1..][i - 1] == gs[i];
      }
    }
  }

  /** Different datetimes are formatted differently. */
  lemma IsoTimeInjective(a: DateTime, b: DateTime)
    requires IsoTime(a) == IsoTime(b)
    ensures a == b
  {
    var fa := IsoFields(a);
    var fb := IsoFields(b);
    FormatFieldsInjective(fa, fb);
    assert fa[0].value == fb[0].value && fa[1].value == fb[1].value && fa[2].value == fb[2].value;
    assert fa[3].value == fb[3].value && fa[4].value == fb[4].value && fa[5].value == fb[5].value;
    assert fa[6].value == fb[6].value;
  }

  /** null_safe_isotime: a datetime formatted, a missing one "". */
  function NullSafeIsoTime(t: Option<DateTime>): (r: string)
    ensures r == [] <==> t.None?
  {
    if t.Some? then IsoTime(t.value) else ""
  }

  // ---------------------------------------------------------------------------
  // Instances and their info

  datatype Flavor = Flavor(name: string, flavorId: string, vcpus: int, memoryMb: int,
                           rootGb: int, ephemeralGb: int)

  /** The fields of an instance the notification reads; a field that is None, or a
      timestamp the instance does not define, is None. */
  datatype Instance = Instance(
    uuid: string, displayName: string, hostname: string, node: string,
    vmState: Option<string>, taskState: Option<string>, cellName: Option<string>,
    progress: Option<int>,
    vcpus: int, memoryMb: int, rootGb: int, ephemeralGb: int, flavor: Flavor,
    terminatedAt: Option<DateTime>, deletedAt: Option<DateTime>, launchedAt: Option<DateTime>,
    accessIpV4: Option<string>, accessIpV6: Option<string>)

  /** The progress of the info: an int, or "" when there is none. */
  datatype Progress = NoProgress | Percent(value: int)

  /** The entries of info_from_instance that the model keeps. */
  datatype InstanceInfo = InstanceInfo(
    instanceId: string, displayName: string, hostname: string, node: string,
    instanceType: string, instanceFlavorId: string,
    memoryMb: int, diskGb: int, vcpus: int, rootGb: int, ephemeralGb: int,
    cellName: string, terminatedAt: string, deletedAt: string, launchedAt: string,
    state: Option<string>, stateDescription: string, progress: Progress,
    accessIpV4: Option<string>, accessIpV6: Option<string>)

  /** null_safe_str: str(s) if s else "". */
  function NullSafeStr(s: Option<string>): (r: string)
    ensures r == if s.Some? then s.value else []
  {
    if Truthy(s) then s.value else ""
  }

  /** null_safe_int: int(s) if s else "", so a progress of 0 is reported as "". */
  function NullSafeInt(p: Option<int>): (r: Progress)
    ensures r.Percent? ==> p == Some(r.value) && r.value != 0
    ensures r.NoProgress? ==> p.None? || p == Some(0)
  {
    if p.Some? && p.value != 0 then Percent(p.value) else NoProgress
  }

  /** info_from_instance: sizes come from the flavor, never from the instance's own
      fields; unset strings, progress and timestamps become "". */
  function InfoFromInstance(inst: Instance): InstanceInfo {
    InstanceInfo(
      inst.uuid, inst.displayName, inst.hostname, inst.node,
      inst.flavor.name, inst.flavor.flavorId,
      inst.flavor.memoryMb, inst.flavor.rootGb + inst.flavor.ephemeralGb, inst.flavor.vcpus,
      inst.flavor.rootGb, inst.flavor.ephemeralGb,
      NullSafeStr(inst.cellName),
      NullSafeIsoTime(inst.terminatedAt), NullSafeIsoTime(inst.deletedAt),
      NullSafeIsoTime(inst.launchedAt),
      inst.vmState, NullSafeStr(inst.taskState), NullSafeInt(inst.progress),
      inst.accessIpV4, inst.accessIpV6)
  }

  /** The sizes are the flavor's, and disk_gb is root plus ephemeral. */
  lemma InfoSizes(inst: Instance)
    ensures var r := InfoFromInstance(inst);
            && r.vcpus == inst.flavor.vcpus && r.memoryMb == inst.flavor.memoryMb
            && r.rootGb == inst.flavor.rootGb && r.ephemeralGb == inst.flavor.ephemeralGb
            && r.diskGb == r.rootGb + r.ephemeralGb
  {
  }

  /** The instance's own vcpus, memory_mb, root_gb and ephemeral_gb do not matter. */
  lemma InfoIgnoresInstanceSizes(a: Instance, b: Instance)
    requires a.(vcpus := b.vcpus, memoryMb := b.memoryMb, rootGb := b.rootGb,
                ephemeralGb := b.ephemeralGb) == b
    ensures InfoFromInstance(a) == InfoFromInstance(b)
  {
  }

  /** Unset values become "", set ones are kept. */
  lemma InfoNullSafety(inst: Instance)
    ensures var r := InfoFromInstance(inst);
            && (r.cellName == [] <==> inst.cellName.None? || inst.cellName == Some([]))
            && (inst.cellName.Some? ==> r.cellName == inst.cellName.value)
            && (r.stateDescription == if inst.taskState.Some? then inst.taskState.value else [])
            && (r.progress.NoProgress? <==> inst.progress.None? || inst.progress == Some(0))
            && (r.terminatedAt == [] <==> inst.terminatedAt.None?)
            && (r.deletedAt == [] <==> inst.deletedAt.None?)
            && (r.launchedAt == [] <==> inst.launchedAt.None?)
  {
  }

  // ---------------------------------------------------------------------------
  // States payload

  datatype StatesPayload = StatesPayload(state: Option<string>, oldState: Option<string>,
                                         oldTaskState: Option<string>, newTaskState: Option<string>)

  /** _compute_states_payload: each state not given (None) is the instance's current
      one. */
  function ComputeStatesPayload(inst: Instance, oldVmState: Option<string>,
                                oldTaskState: Option<string>, newVmState: Option<string>,
                                newTaskState: Option<string>): StatesPayload
  {
    var newVm := if newVmState.None? then inst.vmState else newVmState;
    var newTask := if newTaskState.None? then inst.taskState else newTaskState;
    var oldVm := if oldVmState.None? then inst.vmState else oldVmState;
    var oldTask := if oldTaskState.None? then inst.taskState else oldTaskState;
    StatesPayload(newVm, oldVm, oldTask, newTask)
  }

  /** With nothing given, both the old and the new states are the instance's. */
  lemma StatesDefault(inst: Instance)
    ensures var r := ComputeStatesPayload(inst, None, None, None, None);
            r.state == r.oldState == inst.vmState && r.oldTaskState == r.newTaskState == inst.taskState
  {
  }

  /** A given state is reported as given, whatever the others are. */
  lemma StatesGivenKept(inst: Instance, oldVm: Option<string>, oldTask: Option<string>,
                        newVm: Option<string>, newTask: Option<string>)
    ensures var r := ComputeStatesPayload(inst, oldVm, oldTask, newVm, newTask);
            && (oldVm.Some? ==> r.oldState == oldVm) && (oldTask.Some? ==> r.oldTaskState == oldTask)
            && (newVm.Some? ==> r.state == newVm) && (newTask.Some? ==> r.newTaskState == newTask)
  {
  }

  /** The payload is a fixed point: passing its own states back gives it again, and
      a state is None only where both the argument and the instance's state are. */
  lemma StatesFixedPoint(inst: Instance, oldVm: Option<string>, oldTask: Option<string>,
                         newVm: Option<string>, newTask: Option<string>)
    ensures var r := ComputeStatesPayload(inst, oldVm, oldTask, newVm, newTask);
            && ComputeStatesPayload(inst, r.oldState, r.oldTaskState, r.state, r.newTaskState) == r
            && (r.oldState.None? <==> oldVm.None? && inst.vmState.None?)
            && (r.newTaskState.None? <==> newTask.None? && inst.taskState.None?)
  {
  }

  // ---------------------------------------------------------------------------
  // Publishers

  /** host or CONF.host */
  function HostOr(host: Option<string>, conf: Config): string {
    if Truthy(host) then host.value else conf.host
  }

  /** The publisher id of the legacy notifier: "<service>.<host>". */
  function LegacyPublisherId(service: string, host: Option<string>, conf: Config): string {
    service + "." + HostOr(host, conf)
  }

  /** The source of the versioned notification: the service with "nova-" in front
      unless it already starts with it. */
  function VersionedSource(service: string): (r: string)
    ensures IsPrefix("nova-", r)
  {
    if !IsPrefix("nova-", service) then "nova-" + service else service
  }

  /** The publisher id of the versioned notification: "<source>:<host>". */
  function VersionedPublisherId(service: string, host: Option<string>, conf: Config): string {
    VersionedSource(service) + ":" + HostOr(host, conf)
  }

  /** Mapping a service to its source is idempotent and keeps a "nova-" service. */
  lemma VersionedSourceIdempotent(service: string)
    ensures VersionedSource(VersionedSource(service)) == VersionedSource(service)
    ensures IsPrefix("nova-", service) <==> VersionedSource(service) == service
  {
    if !IsPrefix("nova-", service) {
      assert |"nova-" + service| > |service|;
    }
  }

  /** A service without '.' is read back from the legacy publisher id, and the rest
      is the host, the given one when it is set. */
  lemma LegacyPublisherIdParts(service: string, host: Option<string>, conf: Config)
    requires '.' !in service
    ensures Partition(LegacyPublisherId(service, host, conf), '.')
              == (service, true, if Truthy(host) then host.value else conf.host)
  {
    PartitionAt(service, '.', HostOr(host, conf));
  }

  /** Likewise the versioned publisher id, split at its first ':'. */
  lemma VersionedPublisherIdParts(service: string, host: Option<string>, conf: Config)
    requires ':' !in service
    ensures Partition(VersionedPublisherId(service, host, conf), ':')
              == (VersionedSource(service), true, if Truthy(host) then host.value else conf.host)
  {
    assert ':' !in "nova-";
    assert ':' !in VersionedSource(service) by {
      if !IsPrefix("nova-", service) {
        forall i | 0 <= i < |"nova-" + service| ensures ("nova-" + service)[i] != ':' {
          if i >= 5 {
            assert ("nova-" + service)[i] == service[i - 5];
          }
        }
      }
    }
    PartitionAt(VersionedSource(service), ':', HostOr(host, conf));
  }

  // ---------------------------------------------------------------------------
  // The notifications

  /** The legacy payload: the instance info with its state replaced by the states
      payload, the audit period and, when it is set, the old display name. */
  datatype LegacyPayload = LegacyPayload(
    info: InstanceInfo, oldState: Option<string>, oldTaskState: Option<string>,
    newTaskState: Option<string>, auditPeriodBeginning: string, auditPeriodEnding: string,
    oldDisplayName: Option<string>)

  datatype LegacyNotification = LegacyNotification(publisherId: string, eventType: string,
                                                   payload: LegacyPayload)

  /** The versioned instance.update notification, with the payload fields the model
      keeps. */
  datatype VersionedNotification = VersionedNotification(
    publisherId: string, eventType: string, stateUpdate: StatesPayload,
    auditPeriodBeginning: DateTime, auditPeriodEnding: DateTime,
    displayName: string, hostName: string, node: string, flavorId: string,
    oldDisplayName: Option<string>)

  /** How the code this module cannot see behaves during a send: the database
      lookups of the instance and the message transport. */
  datatype SendOutcome = Delivered | RaisesInstanceNotFound | RaisesOther

  /** What one call of send_instance_update_notification ends in. */
  datatype Attempt =
    | Sent(legacy: LegacyNotification, versioned: VersionedNotification)
    | NotFound
    | Failed

  datatype LogEntry = Debug(message: string) | Exception(message: string)

  const NotFoundMessage: string :=
    "Failed to send instance update notification. The instance could not be found and "
    + "was most likely deleted."
  const FailureMessage: string := "Failed to send state update notification"

  /** The two notifications send_instance_update_notification emits, or None when
      the audit period raises. */
  function UpdateNotifications(conf: Config, inst: Instance, oldVmState: Option<string>,
                               oldTaskState: Option<string>, newVmState: Option<string>,
                               newTaskState: Option<string>, service: string,
                               host: Option<string>, oldDisplayName: Option<string>,
                               now: DateTime): Option<(LegacyNotification, VersionedNotification)>
  {
    var bounds := AuditPeriodBounds(now, true);
    if bounds.None? then None
    else
      var states := ComputeStatesPayload(inst, oldVmState, oldTaskState, newVmState, newTaskState);
      var info := InfoFromInstance(inst).(state := states.state);
      var renamed := if Truthy(oldDisplayName) then oldDisplayName else None;
      var payload := LegacyPayload(info, states.oldState, states.oldTaskState, states.newTaskState,
                                   IsoTime(bounds.value.0), IsoTime(bounds.value.1), renamed);
      var legacy := LegacyNotification(LegacyPublisherId(service, host, conf),
                                       "compute.instance.update", payload);
      var versioned := VersionedNotification(
        VersionedPublisherId(service, host, conf), "instance.update",
        StatesPayload(payload.info.state, payload.oldState, payload.oldTaskState,
                      payload.newTaskState),
        bounds.value.0, bounds.value.1, inst.displayName, inst.hostname, inst.node,
        inst.flavor.flavorId, payload.oldDisplayName);
      Some((legacy, versioned))
  }

  /** send_instance_update_notification inside its caller's try: an InstanceNotFound
      or any other exception ends the attempt without a notification. */
  function SendAttempt(conf: Config, inst: Instance, oldVmState: Option<string>,
                       oldTaskState: Option<string>, newVmState: Option<string>,
                       newTaskState: Option<string>, service: string, host: Option<string>,
                       oldDisplayName: Option<string>, outcome: SendOutcome,
                       now: DateTime): Attempt
  {
    if outcome == RaisesInstanceNotFound then NotFound
    else if outcome == RaisesOther then Failed
    else
      var n := UpdateNotifications(conf, inst, oldVmState, oldTaskState, newVmState, newTaskState,
                                   service, host, oldDisplayName, now);
      if n.None? then Failed else Sent(n.value.0, n.value.1)
  }

  /** Whether the states count as a change for the configured option. */
  predicate StateChanged(conf: Config, oldVmState: Option<string>, newVmState: Option<string>,
                         oldTaskState: Option<string>, newTaskState: Option<string>)
  {
    || oldVmState != newVmState
    || (conf.notifyOnStateChange == VmAndTaskState && oldTaskState != newTaskState)
  }

  /** The gate of send_update_with_states. */
  predicate FiresWithStates(conf: Config, oldVmState: Option<string>, newVmState: Option<string>,
                            oldTaskState: Option<string>, newTaskState: Option<string>,
                            verifyStates: bool)
  {
    Enabled(conf) && (!verifyStates || StateChanged(conf, oldVmState, newVmState, oldTaskState, newTaskState))
  }

  /** What send_update_with_states does: nothing (None), or one attempt. */
  function WithStatesAttempt(conf: Config, inst: Instance, oldVmState: Option<string>,
                             newVmState: Option<string>, oldTaskState: Option<string>,
                             newTaskState: Option<string>, service: string, host: Option<string>,
                             verifyStates: bool, outcome: SendOutcome, now: DateTime): Option<Attempt>
  {
    if FiresWithStates(conf, oldVmState, newVmState, oldTaskState, newTaskState, verifyStates) then
      Some(SendAttempt(conf, inst, oldVmState, oldTaskState, newVmState, newTaskState, service,
                       host, None, outcome, now))
    else None
  }

  /** The old display name send_update reports: the old one when the name changed. */
  function RenamedFrom(oldInst: Instance, newInst: Instance): Option<string> {
    if newInst.displayName != oldInst.displayName then Some(oldInst.displayName) else None
  }

  /** What send_update does: with a state change, send_update_with_states on the new
      instance without verifying; otherwise one attempt without states. */
  function UpdateAttempt(conf: Config, oldInst: Instance, newInst: Instance, service: string,
                         host: Option<string>, outcome: SendOutcome, now: DateTime): Option<Attempt>
  {
    if !Enabled(conf) then None
    else if StateChanged(conf, oldInst.vmState, newInst.vmState, oldInst.taskState, newInst.taskState) then
      WithStatesAttempt(conf, newInst, oldInst.vmState, newInst.vmState, oldInst.taskState,
                        newInst.taskState, service, host, false, outcome, now)
    else
      Some(SendAttempt(conf, newInst, None, None, None, None, service, host,
                       RenamedFrom(oldInst, newInst), outcome, now))
  }

  function EmittedLegacy(a: Option<Attempt>): seq<LegacyNotification> {
    if a.Some? && a.value.Sent? then [a.value.legacy] else []
  }

  function EmittedVersioned(a: Option<Attempt>): seq<VersionedNotification> {
    if a.Some? && a.value.Sent? then [a.value.versioned] else []
  }

  /** InstanceNotFound is logged at debug level, any other exception with its trace. */
  function Logged(a: Option<Attempt>): seq<LogEntry> {
    if a == Some(NotFound) then [Debug(NotFoundMessage)]
    else if a == Some(Failed) then [Exception(FailureMessage)]
    else []
  }

  /** The notifier the sends emit to, and the log they write: each list only grows. */
  class Notifier {
    var notifications: seq<LegacyNotification>
    var versionedNotifications: seq<VersionedNotification>
    var log: seq<LogEntry>

    constructor ()
      ensures notifications == [] && versionedNotifications == [] && log == []
    {
      notifications := [];
      versionedNotifications := [];
      log := [];
    }

    /** send_instance_update_notification within try / except InstanceNotFound /
        except Exception. */
    method TrySendInstanceUpdate(conf: Config, inst: Instance, oldVmState: Option<string>,
                                 oldTaskState: Option<string>, newVmState: Option<string>,
                                 newTaskState: Option<string>, service: string,
                                 host: Option<string>, oldDisplayName: Option<string>,
                                 outcome: SendOutcome, now: DateTime)
      modifies this
      ensures var a := Some(SendAttempt(conf, inst, oldVmState, oldTaskState, newVmState,
                                        newTaskState, service, host, oldDisplayName, outcome, now));
              && notifications == old(notifications) + EmittedLegacy(a)
              && versionedNotifications == old(versionedNotifications) + EmittedVersioned(a)
              && log == old(log) + Logged(a)
    {
      if outcome == RaisesInstanceNotFound {
        log := log + [Debug(NotFoundMessage)];
        return;
      }
      if outcome == RaisesOther {
        log := log + [Exception(FailureMessage)];
        return;
      }
      var n := UpdateNotifications(conf, inst, oldVmState, oldTaskState, newVmState, newTaskState,
                                   service, host, oldDisplayName, now);
      if n.None? {
        log := log + [Exception(FailureMessage)];
        return;
      }
      notifications := notifications + [n.value.0];
      versionedNotifications := versionedNotifications + [n.value.1];
    }

    /** send_update_with_states. */
    method SendUpdateWithStates(conf: Config, inst: Instance, oldVmState: Option<string>,
                                newVmState: Option<string>, oldTaskState: Option<string>,
                                newTaskState: Option<string>, service: string,
                                host: Option<string>, verifyStates: bool,
                                outcome: SendOutcome, now: DateTime)
      modifies this
      ensures var a := WithStatesAttempt(conf, inst, oldVmState, newVmState, oldTaskState,
                                         newTaskState, service, host, verifyStates, outcome, now);
              && notifications == old(notifications) + EmittedLegacy(a)
              && versionedNotifications == old(versionedNotifications) + EmittedVersioned(a)
              && log == old(log) + Logged(a)
    {
      if conf.notifyOnStateChange == Unset {
        return;
      }
      var fireUpdate := true;
      if verifyStates {
        fireUpdate := false;
        if oldVmState != newVmState {
          fireUpdate := true;
        } else if conf.notifyOnStateChange == VmAndTaskState && oldTaskState != newTaskState {
          fireUpdate := true;
        }
      }
      if fireUpdate {
        TrySendInstanceUpdate(conf, inst, oldVmState, oldTaskState, newVmState, newTaskState,
                              service, host, None, outcome, now);
      }
    }

    /** send_update. */
    method SendUpdate(conf: Config, oldInst: Instance, newInst: Instance, service: string,
                      host: Option<string>, outcome: SendOutcome, now: DateTime)
      modifies this
      ensures var a := UpdateAttempt(conf, oldInst, newInst, service, host, outcome, now);
              && notifications == old(notifications) + EmittedLegacy(a)
              && versionedNotifications == old(versionedNotifications) + EmittedVersioned(a)
              && log == old(log) + Logged(a)
    {
      if conf.notifyOnStateChange == Unset {
        return;
      }
      var updateWithStateChange := false;
      if oldInst.vmState != newInst.vmState {
        updateWithStateChange := true;
      } else if conf.notifyOnStateChange == VmAndTaskState && oldInst.taskState != newInst.taskState {
        updateWithStateChange := true;
      }
      if updateWithStateChange {
        SendUpdateWithStates(conf, newInst, oldInst.vmState, newInst.vmState, oldInst.taskState,
                             newInst.taskState, service, host, false, outcome, now);
      } else {
        var oldDisplayName: Option<string> := None;
        if newInst.displayName != oldInst.displayName {
          oldDisplayName := Some(oldInst.displayName);
        }
        TrySendInstanceUpdate(conf, newInst, None, None, None, None, service, host,
                              oldDisplayName, outcome, now);
      }
    }
  }

  // ---------------------------------------------------------------------------
  // What the sends do

  /** With notify_on_state_change unset, neither call does anything. */
  lemma DisabledDoesNothing(conf: Config, oldInst: Instance, inst: Instance,
                            oldVm: Option<string>, newVm: Option<string>, oldTask: Option<string>,
                            newTask: Option<string>, service: string, host: Option<string>,
                            verify: bool, outcome: SendOutcome, now: DateTime)
    requires !Enabled(conf)
    ensures WithStatesAttempt(conf, inst, oldVm, newVm, oldTask, newTask, service, host, verify,
                              outcome, now) == None
    ensures UpdateAttempt(conf, oldInst, inst, service, host, outcome, now) == None
  {
  }

  /** When the states are verified, an unchanged vm state sends nothing unless the
      option is "vm_and_task_state" and the task state changed. */
  lemma VerifiedUnchangedDoesNothing(conf: Config, inst: Instance, vm: Option<string>,
                                     oldTask: Option<string>, newTask: Option<string>,
                                     service: string, host: Option<string>,
                                     outcome: SendOutcome, now: DateTime)
    requires oldTask == newTask || conf.notifyOnStateChange == VmState
    ensures WithStatesAttempt(conf, inst, vm, vm, oldTask, newTask, service, host, true,
                              outcome, now) == None
  {
  }

  /** When enabled, a changed vm state, or a changed task state under
      "vm_and_task_state", is always sent, verified or not; unverified states are
      sent whatever they are. */
  lemma EnabledSends(conf: Config, inst: Instance, oldVm: Option<string>, newVm: Option<string>,
                     oldTask: Option<string>, newTask: Option<string>, service: string,
                     host: Option<string>, verify: bool, outcome: SendOutcome, now: DateTime)
    requires Enabled(conf)
    requires !verify || oldVm != newVm
             || (conf.notifyOnStateChange == VmAndTaskState && oldTask != newTask)
    ensures WithStatesAttempt(conf, inst, oldVm, newVm, oldTask, newTask, service, host, verify,
                              outcome, now)
            == Some(SendAttempt(conf, inst, oldVm, oldTask, newVm, newTask, service, host, None,
                                outcome, now))
  {
  }

  /** send_update always attempts a notification when enabled, with or without a
      state change, even for an unchanged instance. */
  lemma UpdateAlwaysAttempts(conf: Config, oldInst: Instance, newInst: Instance, service: string,
                             host: Option<string>, outcome: SendOutcome, now: DateTime)
    requires Enabled(conf)
    ensures UpdateAttempt(conf, oldInst, newInst, service, host, outcome, now).Some?
  {
  }

  /** A send that raises emits nothing; an InstanceNotFound is never logged as an
      exception, any other exception is. */
  lemma FailuresAreSwallowed(conf: Config, inst: Instance, oldVm: Option<string>,
                             oldTask: Option<string>, newVm: Option<string>,
                             newTask: Option<string>, service: string, host: Option<string>,
                             oldDisplayName: Option<string>, outcome: SendOutcome, now: DateTime)
    requires outcome != Delivered
    ensures var a := Some(SendAttempt(conf, inst, oldVm, oldTask, newVm, newTask, service, host,
                                      oldDisplayName, outcome, now));
            && EmittedLegacy(a) == [] && EmittedVersioned(a) == []
            && (outcome == RaisesInstanceNotFound ==> Logged(a) == [Debug(NotFoundMessage)])
            && (outcome == RaisesOther ==> Logged(a) == [Exception(FailureMessage)])
  {
  }

  /** Whatever a call attempts, an InstanceNotFound leaves no notification and no
      exception in the log. */
  lemma NotFoundIsQuiet(conf: Config, oldInst: Instance, newInst: Instance, service: string,
                        host: Option<string>, now: DateTime)
    ensures var a := UpdateAttempt(conf, oldInst, newInst, service, host, RaisesInstanceNotFound, now);
            && EmittedLegacy(a) == [] && EmittedVersioned(a) == []
            && forall e :: e in Logged(a) ==> e.Debug?
    ensures var a := WithStatesAttempt(conf, newInst, oldInst.vmState, newInst.vmState,
                                       oldInst.taskState, newInst.taskState, service, host, true,
                                       RaisesInstanceNotFound, now);
            && EmittedLegacy(a) == [] && EmittedVersioned(a) == []
            && forall e :: e in Logged(a) ==> e.Debug?
  {
  }

  /** A delivered send within a valid audit period emits one notification of each
      kind, under their event types and publisher ids, and logs nothing. */
  lemma DeliveredSends(conf: Config, inst: Instance, oldVm: Option<string>,
                       oldTask: Option<string>, newVm: Option<string>, newTask: Option<string>,
                       service: string, host: Option<string>, oldDisplayName: Option<string>,
                       now: DateTime)
    requires LastCompletedMonth(now).Some?
    ensures var a := SendAttempt(conf, inst, oldVm, oldTask, newVm, newTask, service, host,
                                 oldDisplayName, Delivered, now);
            && a.Sent? && Logged(Some(a)) == []
            && a.legacy.eventType == "compute.instance.update"
            && a.versioned.eventType == "instance.update"
            && a.legacy.publisherId == LegacyPublisherId(service, host, conf)
            && a.versioned.publisherId == VersionedPublisherId(service, host, conf)
  {
  }

  /** The two notifications of one send agree: the same states, names, host name,
      node and old display name, the old display name only when it is set. */
  predicate Agree(legacy: LegacyNotification, versioned: VersionedNotification, inst: Instance,
                  st: StatesPayload, oldDisplayName: Option<string>)
  {
    var p := legacy.payload;
    && versioned.stateUpdate == st
    && p.info.state == st.state && p.oldState == st.oldState
    && p.oldTaskState == st.oldTaskState && p.newTaskState == st.newTaskState
    && versioned.displayName == p.info.displayName == inst.displayName
    && versioned.hostName == p.info.hostname == inst.hostname
    && versioned.node == p.info.node == inst.node
    && versioned.oldDisplayName == p.oldDisplayName
    && (p.oldDisplayName.Some? <==> Truthy(oldDisplayName))
    && (p.oldDisplayName.Some? ==> p.oldDisplayName == oldDisplayName)
  }

  lemma SentNotificationsAgree(conf: Config, inst: Instance, oldVm: Option<string>,
                               oldTask: Option<string>, newVm: Option<string>,
                               newTask: Option<string>, service: string, host: Option<string>,
                               oldDisplayName: Option<string>, outcome: SendOutcome, now: DateTime)
    ensures var a := SendAttempt(conf, inst, oldVm, oldTask, newVm, newTask, service, host,
                                 oldDisplayName, outcome, now);
            a.Sent? ==> Agree(a.legacy, a.versioned, inst,
                              ComputeStatesPayload(inst, oldVm, oldTask, newVm, newTask),
                              oldDisplayName)
  {
    var a := SendAttempt(conf, inst, oldVm, oldTask, newVm, newTask, service, host,
                         oldDisplayName, outcome, now);
    if a.Sent? {
      var n := UpdateNotifications(conf, inst, oldVm, oldTask, newVm, newTask, service, host,
                                   oldDisplayName, now);
      assert n == Some((a.legacy, a.versioned));
      var info := InfoFromInstance(inst);
      assert info.displayName == inst.displayName && info.hostname == inst.hostname
             && info.node == inst.node;
    }
  }

  /** The audit period of a send is the one that ends now: from the end of the last
      completed month, written with strtime in the legacy payload. */
  lemma SentAuditPeriod(conf: Config, inst: Instance, oldVm: Option<string>,
                        oldTask: Option<string>, newVm: Option<string>,
                        newTask: Option<string>, service: string, host: Option<string>,
                        oldDisplayName: Option<string>, outcome: SendOutcome, now: DateTime)
    ensures var a := SendAttempt(conf, inst, oldVm, oldTask, newVm, newTask, service, host,
                                 oldDisplayName, outcome, now);
            a.Sent? ==> AuditPeriodOf(a.legacy, a.versioned, now)
  {
    var n := UpdateNotifications(conf, inst, oldVm, oldTask, newVm, newTask, service, host,
                                 oldDisplayName, now);
    if n.Some? {
      var p := LastCompletedMonth(now);
      assert p.Some? && AuditPeriodBounds(now, true) == Some((p.value.1, now));
      assert AuditPeriodOf(n.value.0, n.value.1, now);
    }
  }

  predicate AuditPeriodOf(legacy: LegacyNotification, versioned: VersionedNotification,
                          now: DateTime)
  {
    && versioned.auditPeriodEnding == now
    && LastCompletedMonth(now).Some?
    && versioned.auditPeriodBeginning == LastCompletedMonth(now).value.1
    && legacy.payload.auditPeriodBeginning == IsoTime(versioned.auditPeriodBeginning)
    && legacy.payload.auditPeriodEnding == IsoTime(now)
  }

  /** send_update without a state change reports the old display name exactly when
      the name changed (and the old one is not empty), and the new one as the name. */
  lemma UpdateReportsRename(conf: Config, oldInst: Instance, newInst: Instance, service: string,
                            host: Option<string>, now: DateTime)
    requires Enabled(conf)
    requires !StateChanged(conf, oldInst.vmState, newInst.vmState, oldInst.taskState,
                           newInst.taskState)
    requires LastCompletedMonth(now).Some?
    ensures var a := UpdateAttempt(conf, oldInst, newInst, service, host, Delivered, now);
            && a.Some? && a.value.Sent?
            && a.value.legacy.payload.info.displayName == newInst.displayName
            && a.value.versioned.displayName == newInst.displayName
            && (a.value.legacy.payload.oldDisplayName.Some? <==>
                  newInst.displayName != oldInst.displayName && oldInst.displayName != [])
            && (a.value.legacy.payload.oldDisplayName.Some? ==>
                  a.value.legacy.payload.oldDisplayName == Some(oldInst.displayName))
            && a.value.versioned.oldDisplayName == a.value.legacy.payload.oldDisplayName
  {
    SentNotificationsAgree(conf, newInst, None, None, None, None, service, host,
                           RenamedFrom(oldInst, newInst), Delivered, now);
  }

  /** send_update with a state change sends the old and the new states, and no old
      display name even when the name changed. */
  lemma UpdateReportsStates(conf: Config, oldInst: Instance, newInst: Instance, service: string,
                            host: Option<string>, now: DateTime)
    requires Enabled(conf)
    requires StateChanged(conf, oldInst.vmState, newInst.vmState, oldInst.taskState,
                          newInst.taskState)
    requires LastCompletedMonth(now).Some?
    ensures var a := UpdateAttempt(conf, oldInst, newInst, service, host, Delivered, now);
            var st := ComputeStatesPayload(newInst, oldInst.vmState, oldInst.taskState,
                                           newInst.vmState, newInst.taskState);
            && a.Some? && a.value.Sent?
            && a.value.versioned.stateUpdate == st
            && a.value.legacy.payload.oldState == st.oldState
            && a.value.legacy.payload.info.state == st.state
            && a.value.legacy.payload.oldDisplayName.None?
  {
    SentNotificationsAgree(conf, newInst, oldInst.vmState, oldInst.taskState, newInst.vmState,
                           newInst.taskState, service, host, None, Delivered, now);
  }

  // ---------------------------------------------------------------------------
  // Examples

  /** The fixture: host "testhost", both states notified, and an m1.tiny instance.
      The clock reads 2017-02-02 16:45:00. */
  const TestConfig: Config := Config(VmAndTaskState, "testhost")

  const FakeTime: DateTime := Timestamp(2017, 2, 2, 16, 45, 0, 0)

  function TestInstance(): Instance {
    Instance("instance-uuid", "test_instance", "test_instance_hostname", "test_instance_node",
             None, None, None, None, 1, 512, 0, 0, Flavor("m1.tiny", "1", 1, 512, 1, 0),
             None, None, None, Some("1.2.3.4"), Some("feed::5eed"))
  }

  lemma PadExamples()
    ensures Pad(2017, 4) == "2017" && Pad(2, 2) == "02" && Pad(1, 2) == "01"
    ensures Pad(16, 2) == "16" && Pad(45, 2) == "45" && Pad(0, 2) == "00" && Pad(0, 6) == "000000"
  {
    assert NatToString(2017) == "2017" by {
      assert NatToString(2) == "2" && NatToString(20) == "20" && NatToString(201) == "201";
    }
    assert NatToString(16) == "16" && NatToString(45) == "45";
    assert Zeros(1) == "0" && Zeros(5) == "00000";
  }

  lemma FormatFieldsCons(fs: seq<TimeField>)
    requires fs != []
    ensures FormatFields(fs) == Pad(fs[0].value, fs[0].width) + (fs[0].sep + FormatFields(fs[1..]))
  {
  }

  /** strtime(t) spelled out field by field. */
  lemma IsoTimeFields(t: DateTime)
    ensures IsoTime(t) == Pad(t.year, 4) + ("-" + (Pad(t.month, 2) + ("-" + (Pad(t.day, 2) + ("T"
                          + (Pad(t.hour, 2) + (":" + (Pad(t.minute, 2) + (":" + (Pad(t.second, 2)
                          + ("." + Pad(t.microsecond, 6))))))))))))
  {
    var f := IsoFields(t);
    FormatFieldsCons(f[6..]);
    assert FormatFields(f[6..]) == Pad(t.microsecond, 6);
    FormatFieldsCons(f[5..]);
    FormatFieldsCons(f[4..]);
    FormatFieldsCons(f[3..]);
    FormatFieldsCons(f[2..]);
    FormatFieldsCons(f[1..]);
    FormatFieldsCons(f);
  }

  lemma IsoTimeLiterals()
    ensures "2017" + ("-" + ("02" + ("-" + ("02" + ("T" + ("16" + (":" + ("45" + (":" + ("00"
              + ("." + "000000")))))))))))
            == "2017-02-02T16:45:00.000000"
    ensures "2017" + ("-" + ("02" + ("-" + ("01" + ("T" + ("00" + (":" + ("00" + (":" + ("00"
              + ("." + "000000")))))))))))
            == "2017-02-01T00:00:00.000000"
  {
  }

  lemma IsoTimeExamples()
    ensures IsoTime(FakeTime) == "2017-02-02T16:45:00.000000"
    ensures IsoTime(Timestamp(2017, 2, 1, 0, 0, 0, 0)) == "2017-02-01T00:00:00.000000"
  {
    PadExamples();
    IsoTimeLiterals();
    IsoTimeFields(FakeTime);
    IsoTimeFields(Timestamp(2017, 2, 1, 0, 0, 0, 0));
  }

  /** At the fake time the current audit period runs from 2017-02-01 until now; at
      the very start of a January the last completed month is the December before. */
  lemma AuditPeriodExamples()
    ensures AuditPeriodBounds(FakeTime, true) == Some((Timestamp(2017, 2, 1, 0, 0, 0, 0), FakeTime))
    ensures AuditPeriodBounds(FakeTime, false)
              == Some((Timestamp(2017, 1, 1, 0, 0, 0, 0), Timestamp(2017, 2, 1, 0, 0, 0, 0)))
    ensures AuditPeriodBounds(Timestamp(2017, 1, 1, 0, 0, 0, 0), true)
              == Some((Timestamp(2016, 12, 1, 0, 0, 0, 0), Timestamp(2017, 1, 1, 0, 0, 0, 0)))
  {
  }

  lemma SourceExamples()
    ensures VersionedSource("compute") == "nova-compute"
    ensures VersionedSource("nova-compute") == "nova-compute"
  {
    assert !IsPrefix("nova-", "compute") by { assert "compute"[0] != "nova-"[0]; }
    assert IsPrefix("nova-", "nova-compute") by { assert "nova-compute"[..5] == "nova-"; }
  }

  lemma PublisherLiterals()
    ensures "compute" + "." + "testhost" == "compute.testhost"
    ensures "nova-" + "compute" == "nova-compute"
    ensures "nova-compute" + ":" + "testhost" == "nova-compute:testhost"
    ensures "nova-compute" + "." + "testhost" == "nova-compute.testhost"
    ensures "compute" + "." + "someotherhost" == "compute.someotherhost"
    ensures "nova-compute" + ":" + "someotherhost" == "nova-compute:someotherhost"
  {
  }

  /** The default service, a "nova-" service, and a host given by the caller. */
  lemma PublisherIdExamples()
    ensures LegacyPublisherId("compute", None, TestConfig) == "compute.testhost"
    ensures VersionedPublisherId("compute", None, TestConfig) == "nova-compute:testhost"
    ensures LegacyPublisherId("nova-compute", None, TestConfig) == "nova-compute.testhost"
    ensures VersionedPublisherId("nova-compute", None, TestConfig) == "nova-compute:testhost"
    ensures LegacyPublisherId("compute", Some("someotherhost"), TestConfig) == "compute.someotherhost"
    ensures VersionedPublisherId("compute", Some("someotherhost"), TestConfig)
              == "nova-compute:someotherhost"
  {
    SourceExamples();
    PublisherLiterals();
    assert HostOr(None, TestConfig) == "testhost";
    assert HostOr(Some("someotherhost"), TestConfig) == "someotherhost";
  }

  /** The states from an instance alone, with the old vm state given, and with all
      four states given. */
  lemma StatesExamples()
    ensures var inst := TestInstance().(vmState := Some("vm_state"), taskState := Some("task_state"));
            && ComputeStatesPayload(inst, None, None, None, None)
                 == StatesPayload(Some("vm_state"), Some("vm_state"), Some("task_state"), Some("task_state"))
            && ComputeStatesPayload(inst, Some("old_vm_state"), None, None, None)
                 == StatesPayload(Some("vm_state"), Some("old_vm_state"), Some("task_state"), Some("task_state"))
            && ComputeStatesPayload(inst, Some("old_vm_state"), Some("old_task_state"),
                                    Some("new_vm_state"), Some("new_task_state"))
                 == StatesPayload(Some("new_vm_state"), Some("old_vm_state"), Some("old_task_state"),
                                  Some("new_task_state"))
  {
  }

  /** cell_name and progress are "" when unset; the sizes are the flavor's; a
      timestamp the instance does not define is "". */
  lemma InfoExamples()
    ensures InfoFromInstance(TestInstance()).cellName == ""
    ensures InfoFromInstance(TestInstance().(cellName := Some("cell1"))).cellName == "cell1"
    ensures InfoFromInstance(TestInstance()).progress == NoProgress
    ensures InfoFromInstance(TestInstance().(progress := Some(50))).progress == Percent(50)
    ensures var inst := TestInstance().(vcpus := 0, memoryMb := 0, rootGb := 0, ephemeralGb := 0,
              flavor := TestInstance().flavor.(vcpus := 10, rootGb := 20, memoryMb := 30,
                                              ephemeralGb := 40));
            var r := InfoFromInstance(inst);
            r.vcpus == 10 && r.rootGb == 20 && r.memoryMb == 30 && r.ephemeralGb == 40
            && r.diskGb == 60
    ensures var r := InfoFromInstance(TestInstance().(terminatedAt := Some(FakeTime),
                                                      launchedAt := Some(FakeTime)));
            r.terminatedAt == "2017-02-02T16:45:00.000000"
            && r.launchedAt == "2017-02-02T16:45:00.000000" && r.deletedAt == ""
  {
    IsoTimeExamples();
  }

  /** A verified vm state change from building to active, task spawning, of any
      instance at the fake time: one notification of each kind, carrying the given
      states, the instance's names and access ips, and the audit period from
      2017-02-01 until now. */
  lemma VmUpdateWithStatesExample(inst: Instance)
    ensures var a := WithStatesAttempt(TestConfig, inst, Some("building"), Some("active"),
                                       Some("spawning"), Some("spawning"), "compute", None, true,
                                       Delivered, FakeTime);
            && a.Some? && a.value.Sent?
            && a.value.legacy.payload.oldState == Some("building")
            && a.value.legacy.payload.info.state == Some("active")
            && a.value.legacy.payload.oldTaskState == Some("spawning")
            && a.value.legacy.payload.newTaskState == Some("spawning")
            && a.value.legacy.payload.info.accessIpV4 == inst.accessIpV4
            && a.value.legacy.payload.info.accessIpV6 == inst.accessIpV6
            && a.value.legacy.payload.info.displayName == inst.displayName
            && a.value.legacy.payload.auditPeriodBeginning == "2017-02-01T00:00:00.000000"
            && a.value.legacy.payload.auditPeriodEnding == "2017-02-02T16:45:00.000000"
            && a.value.versioned.stateUpdate
                 == StatesPayload(Some("active"), Some("building"), Some("spawning"), Some("spawning"))
            && a.value.versioned.hostName == inst.hostname
            && a.value.versioned.eventType == "instance.update"
  {
    WithStatesSends(TestConfig, inst, Some("building"), Some("active"), Some("spawning"),
                    Some("spawning"), "compute", None, FakeTime);
    AuditPeriodExamples();
    IsoTimeExamples();
  }

  /** A verified state change with every state given, delivered: the notifications carry
      the given states, the instance's names and access ips and the current audit period. */
  lemma WithStatesSends(conf: Config, inst: Instance, oldVm: Option<string>, newVm: Option<string>,
                        oldTask: Option<string>, newTask: Option<string>, service: string,
                        host: Option<string>, now: DateTime)
    requires Enabled(conf) && oldVm != newVm && LastCompletedMonth(now).Some?
    requires oldVm.Some? && newVm.Some? && oldTask.Some? && newTask.Some?
    ensures var a := WithStatesAttempt(conf, inst, oldVm, newVm, oldTask, newTask, service, host, true,
                                       Delivered, now);
            && a.Some? && a.value.Sent?
            && a.value.legacy.payload.oldState == oldVm
            && a.value.legacy.payload.info.state == newVm
            && a.value.legacy.payload.oldTaskState == oldTask
            && a.value.legacy.payload.newTaskState == newTask
            && a.value.legacy.payload.info.accessIpV4 == inst.accessIpV4
            && a.value.legacy.payload.info.accessIpV6 == inst.accessIpV6
            && a.value.legacy.payload.info.displayName == inst.displayName
            && a.value.legacy.payload.auditPeriodBeginning == IsoTime(AuditPeriodBounds(now, true).value.0)
            && a.value.legacy.payload.auditPeriodEnding == IsoTime(now)
            && a.value.versioned.stateUpdate == StatesPayload(newVm, oldVm, oldTask, newTask)
            && a.value.versioned.hostName == inst.hostname
            && a.value.versioned.eventType == "instance.update"
  {
    var a := SendAttempt(conf, inst, oldVm, oldTask, newVm, newTask, service, host, None, Delivered, now);
    EnabledSends(conf, inst, oldVm, newVm, oldTask, newTask, service, host, true, Delivered, now);
    DeliveredSends(conf, inst, oldVm, oldTask, newVm, newTask, service, host, None, now);
    SentNotificationsAgree(conf, inst, oldVm, oldTask, newVm, newTask, service, host, None, Delivered, now);
    var n := UpdateNotifications(conf, inst, oldVm, oldTask, newVm, newTask, service, host, None, now);
    assert n == Some((a.legacy, a.versioned));
  }

  /** test_task_notif: under "vm_state" a task change alone sends nothing; after
      switching to "vm_and_task_state", send_update sends one of each kind. */
  method TaskNotificationScenario() returns (before: nat, after: nat, versionedAfter: nat)
    ensures before == 0 && after == 1 && versionedAfter == 1
  {
    var notifier := new Notifier();
    var previous := TestInstance();
    var inst := previous.(taskState := Some("spawning"));
    notifier.SendUpdateWithStates(Config(VmState, "testhost"), inst, previous.vmState, inst.vmState,
                                  previous.taskState, inst.taskState, "compute", None, true,
                                  Delivered, FakeTime);
    before := |notifier.notifications|;
    notifier.SendUpdate(TestConfig, previous, inst, "compute", None, Delivered, FakeTime);
    assert AuditPeriodBounds(FakeTime, true).Some?;
    after := |notifier.notifications|;
    versionedAfter := |notifier.versionedNotifications|;
  }

  /** test_notif_disabled: with the option unset neither call emits anything. */
  method DisabledScenario() returns (legacy: nat, versioned: nat)
    ensures legacy == 0 && versioned == 0
  {
    var notifier := new Notifier();
    var previous := TestInstance();
    var inst := previous.(vmState := Some("active"));
    var conf := Config(Unset, "testhost");
    notifier.SendUpdateWithStates(conf, inst, previous.vmState, inst.vmState, previous.taskState,
                                  inst.taskState, "compute", None, true, Delivered, FakeTime);
    notifier.SendUpdate(conf, previous, inst, "compute", None, Delivered, FakeTime);
    legacy := |notifier.notifications|;
    versioned := |notifier.versionedNotifications|;
  }

  /** test_fail_sending_update_instance_not_found and its send_update_with_states
      twin: nothing is emitted and no exception is logged. */
  method InstanceNotFoundScenario() returns (legacy: nat, log: seq<LogEntry>)
    ensures legacy == 0 && log == [Debug(NotFoundMessage), Debug(NotFoundMessage)]
  {
    var notifier := new Notifier();
    var inst := TestInstance();
    notifier.SendUpdate(TestConfig, inst, inst, "compute", None, RaisesInstanceNotFound, FakeTime);
    notifier.SendUpdateWithStates(TestConfig, inst, Some("building"), Some("error"),
                                  Some("networking"), None, "compute", None, false,
                                  RaisesInstanceNotFound, FakeTime);
    legacy := |notifier.notifications|;
    log := notifier.log;
  }
}
