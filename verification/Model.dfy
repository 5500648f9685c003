/** The values every part of the control plane shares: connections ("atomics"),
    what is believed about their capacity, service profiles, demand and tunables. */
module Model {

  datatype Option<+T> = None | Some(value: T)

  datatype Result<+T, +E> = Ok(value: T) | Err(error: E)

  /** Stable identity of a connection; never an interface name. */
  type Id = string

  datatype Mode = Normal | Backup | Unused

  datatype Kind = Wifi | UsbTether | UsbEthernet | Ethernet | Cellular

  datatype PortRole = Wan | LanOut

  datatype Health = Good | Degraded | Down | Absent | Unknown

  datatype Capacity = Capacity(downBps: nat, upBps: nat, confidence: real, measuredAt: Option<real>) {
    predicate Known() {
      confidence > 0.0
    }
  }

  /** A connection nobody has measured yet. */
  const UNMEASURED := Capacity(0, 0, 0.0, None)

  datatype Cost = Cost(metered: bool, consumedBytes: nat, livenessBytes: nat, activations: nat, activeSeconds: real)

  datatype Atomic = Atomic(
    id: Id,
    kind: Kind,
    title: string,
    mode: Mode,
    health: Health,
    role: PortRole,
    capacity: Capacity,
    rttMs: Option<real>,
    cost: Cost,
    ifname: Option<string>,
    present: bool,
    everConnected: bool,
    attributes: map<string, string>)
  {
    predicate Usable() {
      present && role.Wan? && !mode.Unused? && (health.Good? || health.Degraded?)
    }

    predicate InNormalPool() {
      Usable() && mode.Normal?
    }

    predicate PresentBackup() {
      mode.Backup? && present
    }

    /** `if atomic.ifname`: neither missing nor the empty string. */
    predicate Addressed() {
      ifname.Some? && ifname.value != ""
    }
  }

  datatype Priority = Critical | BestEffort

  datatype ServiceProfile = ServiceProfile(name: string, priority: Priority, mayUseBackup: bool, vlan: int)

  const CRITICAL := ServiceProfile("Stable_critical", Critical, true, 10)
  const BEST_EFFORT := ServiceProfile("Stable_besteffort", BestEffort, false, 20)
  const DEFAULT_PROFILES := [CRITICAL, BEST_EFFORT]
  const SINGLE_LAN_PROFILES := [BEST_EFFORT]

  function ProfilesForLanMode(lanMode: string): seq<ServiceProfile> {
    if lanMode == "single" then SINGLE_LAN_PROFILES else DEFAULT_PROFILES
  }

  datatype ClassDemand = ClassDemand(downBps: nat, upBps: nat)

  type Demand = map<string, ClassDemand>

  datatype Thresholds = Thresholds(
    activationDeficitBps: int,
    activationDwell: real,
    recoveryMarginBps: int,
    recoveryDwell: real,
    livenessInterval: real,
    livenessBytes: nat,
    minConfidence: real)

  /** The shipped tuning is inside the range the response-time results ask for. */
  predicate NonNegative(t: Thresholds) {
    t.activationDeficitBps >= 0 && t.recoveryMarginBps >= 0 && t.activationDwell >= 0.0 && t.recoveryDwell >= 0.0
  }

  ghost predicate DistinctIds(atomics: seq<Atomic>) {
    forall i, j :: 0 <= i < j < |atomics| ==> atomics[i].id != atomics[j].id
  }

  ghost predicate DistinctNames(profiles: seq<ServiceProfile>) {
    forall i, j :: 0 <= i < j < |profiles| ==> profiles[i].name != profiles[j].name
  }

  function Min(a: nat, b: nat): nat {
    if a <= b then a else b
  }

  function Max(a: nat, b: nat): nat {
    if a >= b then a else b
  }

  function Reversed<T>(s: seq<T>): (r: seq<T>)
    ensures |r| == |s|
    ensures forall i :: 0 <= i < |s| ==> r[i] == s[|s| - 1 - i]
  {
    seq(|s|, i requires 0 <= i < |s| => s[|s| - 1 - i])
  }
}
