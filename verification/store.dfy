/** Row shapes and dictionaries shared by the engine and its neighbours. */
module Store {
  import opened Wrappers

  type ClientId = string
  type Path = string

  const KIND_AWG := "awg"
  const PATH_DIRECT := "direct"
  const PATH_PROXY := "proxy"
  const PATH_HOPS := "hops"

  /** One probed (inbound, path) pair of a mon-client's config. */
  datatype TargetKey = TargetKey(kind: string, inbound: int, path: Path) {
    function Inbound(): InboundKey { InboundKey(kind, inbound) }
  }

  datatype InboundKey = InboundKey(kind: string, inbound: int)

  datatype TargetState = Unknown | Up | Down | Flapping | Paused

  /** The reason dictionary.  A mon-client may send any text, so `Other` holds
      every string that is not one of the dictionary's own. */
  datatype Reason =
    | NoReason
    | HttpError
    | Recovered
    | FlappingReason
    | ConfigDisabled
    | ConfigEnabled
    | MonClientOffline
    | MonClientDisabled
    | MonClientRevoked
    | HeartbeatMissed
    | TokenRevoked
    | OverrideDisabled
    | PathRemoved
    | NoProbeLink
    | ConfigError
    | Other(text: string)

  /** The PAUSED reasons a heartbeat sets and releases. */
  predicate IsConfigPause(r: Reason) {
    r in {OverrideDisabled, PathRemoved, NoProbeLink, ConfigError}
  }

  /** Every reason a PAUSED row may carry. */
  predicate IsPauseReason(r: Reason) {
    r == ConfigDisabled || IsConfigPause(r)
  }

  /** A row of `targets`.  Times are milliseconds of mon-server's clock; `flips`
      is the decoded Transitions column. */
  datatype Target = Target(
    id: nat,
    client: ClientId,
    key: TargetKey,
    state: TargetState,
    since: int,
    reason: Reason,
    fails: nat,
    oks: nat,
    flips: seq<int>,
    flappingUntil: Option<int>,
    lastResultAt: Option<int>)

  /** The row targetRow creates for a target without one. */
  function Fresh(id: nat, client: ClientId, key: TargetKey, now: int): Target {
    Target(id, client, key, Unknown, now, NoReason, 0, 0, [], None, None)
  }
}
