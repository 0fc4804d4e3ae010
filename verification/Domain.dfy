/** The values every part of the agent shares: placements, backends and the small result types. */
module Domain {

  datatype Option<+T> = None | Some(value: T)

  datatype Result<+T> = Ok(value: T) | Err(error: string)

  datatype DesiredState = Active | Inactive

  datatype AppliedState = Pending | Applied | Failed

  datatype Transport = Unspecified | Tcp | Ws | XHttp | Reality

  /** `rest` stands for the fields that are carried along and never inspected. */
  datatype Placement = Placement(
    id: string,
    clientId: string,
    backendId: string,
    desired: DesiredState,
    applied: AppliedState,
    opVersion: nat,
    transport: Transport,
    revoked: bool,
    rest: string)

  datatype Backend = Backend(id: string, address: string, port: nat)

  type Store = map<string, Placement>

  predicate WellKeyed(store: Store) {
    forall id | id in store :: store[id].id == id
  }

  /** The store holds this version of a placement or a later one already. */
  predicate StaleAt(store: Store, id: string, version: nat) {
    version != 0 && (if id in store then store[id].opVersion else 0) >= version
  }

  predicate Stale(store: Store, p: Placement) {
    StaleAt(store, p.id, p.opVersion)
  }

  /** What a flip plan says about the placement to swap. */
  datatype SwapPlan = SwapPlan(placementId: string, opVersion: nat, desired: Placement)

  /** The plan the executor makes for a command. */
  function PlanFor(p: Placement): SwapPlan {
    SwapPlan(p.id, p.opVersion, p)
  }

  function Ids(backends: seq<Backend>): set<string> {
    set b | b in backends :: b.id
  }

  function SetOf<T(==)>(s: seq<T>): set<T> {
    set x | x in s
  }

  /** The VLESS flow of a transport: vision on REALITY, none otherwise. */
  function FlowFor(t: Transport): string {
    if t == Reality then "xtls-rprx-vision" else ""
  }
}
