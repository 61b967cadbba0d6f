/** The lifecycle of hosts and its transition log. */
module HostLifecycle {
  import opened Options

  datatype State = Created | DnsPending | CertPending | Active | Maintenance | Disabled | Error

  function AllowedFrom(from: State): set<State> {
    match from
    case Created => {DnsPending, CertPending, Error, Disabled}
    case DnsPending => {CertPending, Error, Disabled}
    case CertPending => {Active, Error, Disabled}
    case Active => {Error, CertPending, Disabled, Maintenance}
    case Maintenance => {Active, Error, Disabled}
    case Disabled => {Active, Error}
    case Error => {DnsPending, CertPending, Disabled, Maintenance}
  }

  predicate ValidTransition(from: Option<State>, to: State) {
    match from
    case None => to == Created
    case Some(f) => to in AllowedFrom(f)
  }

  /** The same transitions, by where a state can be entered from. */
  lemma EnteredFrom(from: State)
    ensures Created !in AllowedFrom(from)
    ensures DnsPending in AllowedFrom(from) <==> from in {Created, Error}
    ensures CertPending in AllowedFrom(from) <==> from in {Created, DnsPending, Active, Error}
    ensures Active in AllowedFrom(from) <==> from in {CertPending, Maintenance, Disabled}
    ensures Maintenance in AllowedFrom(from) <==> from in {Active, Error}
    ensures Disabled in AllowedFrom(from) <==> from != Disabled
    ensures Error in AllowedFrom(from) <==> from != Error
  {
  }

  datatype Host = Host(domain: int, state: State, reason: string)

  datatype Transition = Transition(from: Option<State>, to: State, reason: string)

  /** A gap-free path of valid transitions from creation to `state`. */
  predicate IsPath(path: seq<Transition>, state: State) {
    && |path| > 0
    && path[0].from == None
    && (forall i :: 0 <= i < |path| ==> ValidTransition(path[i].from, path[i].to))
    && (forall i :: 0 < i < |path| ==> path[i].from == Some(path[i - 1].to))
    && path[|path| - 1].to == state
  }

  lemma PathExtends(path: seq<Transition>, state: State, t: Transition)
    requires IsPath(path, state) && t.from == Some(state) && t.to in AllowedFrom(state)
    ensures IsPath(path + [t], t.to)
  {
  }

  /** The hosts, and the transition log grouped by host. */
  class HostStore {
    var hosts: map<int, Host>
    var log: map<int, seq<Transition>>
    var nextId: int

    predicate Logged(id: int)
      reads this`hosts, this`log
    {
      id in hosts ==> id in log && IsPath(log[id], hosts[id].state)
    }

    /** Every host's log is a gap-free valid path from its creation to its current state. */
    ghost predicate Valid()
      reads this
    {
      1 <= nextId && (forall id :: Logged(id)) && forall id :: id in hosts ==> 1 <= id < nextId
    }

    constructor ()
      ensures Valid() && hosts == map[]
    {
      hosts, log, nextId := map[], map[], 1;
    }

    method Insert(domain: int) returns (id: int)
      requires Valid()
      modifies this
      ensures Valid() && id !in old(hosts)
      ensures hosts == old(hosts)[id := Host(domain, Created, "initial")]
      ensures log == old(log)[id := [Transition(None, Created, "initial")]]
    {
      id := nextId;
      nextId := nextId + 1;
      hosts := hosts[id := Host(domain, Created, "initial")];
      log := log[id := [Transition(None, Created, "initial")]];
      forall other
        ensures Logged(other)
      {
        assert old(Logged(other));
      }
    }

    /** The only way a state changes: refused unless the transition is valid, and logged. */
    method SetHostState(id: int, to: State, reason: string) returns (ok: bool)
      requires Valid()
      modifies this`hosts, this`log
      ensures Valid()
      ensures ok <==> id in old(hosts) && to in AllowedFrom(old(hosts)[id].state)
      ensures ok ==> hosts == old(hosts)[id := old(hosts)[id].(state := to, reason := reason)]
      ensures ok ==> id in old(log)
      ensures ok ==> log == old(log)[id := old(log)[id] + [Transition(Some(old(hosts)[id].state), to, reason)]]
      ensures !ok ==> hosts == old(hosts) && log == old(log)
    {
      if id !in hosts || to !in AllowedFrom(hosts[id].state) {
        return false;
      }
      assert Logged(id);
      var t := Transition(Some(hosts[id].state), to, reason);
      PathExtends(log[id], hosts[id].state, t);
      hosts := hosts[id := hosts[id].(state := to, reason := reason)];
      log := log[id := log[id] + [t]];
      forall other
        ensures Logged(other)
      {
        assert old(Logged(other));
      }
      ok := true;
    }

    predicate StateIs(id: int, state: State)
      reads this`hosts
    {
      id in hosts && hosts[id].state == state
    }

    ghost predicate OthersUnchanged(before: map<int, Host>, id: int)
      reads this`hosts
    {
      hosts.Keys == before.Keys && forall other :: other in before && other != id ==> hosts[other] == before[other]
    }

    /** Creation ends active, or in error if DNS fails; no step is refused. */
    method CreateHost(domain: int, dnsFails: bool) returns (id: int)
      requires Valid()
      modifies this
      ensures Valid() && id !in old(hosts) && hosts.Keys == old(hosts.Keys) + {id}
      ensures StateIs(id, if dnsFails then Error else Active)
      ensures forall other :: other in old(hosts) ==> hosts[other] == old(hosts)[other]
    {
      id := Insert(domain);
      var ok := SetHostState(id, DnsPending, "created");
      if dnsFails {
        ok := SetHostState(id, Error, "dns");
      } else {
        ok := SetHostState(id, CertPending, "dns_ok");
        ok := SetHostState(id, Active, "cert_manager_async");
      }
      assert ok;
    }

    /** Disabling and enabling a host that exists is never refused. */
    method SetHostDisabled(id: int, disabled: bool) returns (ok: bool)
      requires Valid()
      modifies this`hosts, this`log
      ensures Valid() && (ok <==> id in old(hosts)) && OthersUnchanged(old(hosts), id)
      ensures ok && disabled ==> StateIs(id, Disabled)
      ensures ok && !disabled ==>
        StateIs(id, if old(hosts)[id].state == Disabled then Active else old(hosts)[id].state)
    {
      if id !in hosts {
        return false;
      }
      if disabled {
        if hosts[id].state == Disabled {
          return true;
        }
        ok := SetHostState(id, Disabled, "manual_disable");
      } else {
        if hosts[id].state != Disabled {
          return true;
        }
        ok := SetHostState(id, Active, "manual_enable");
      }
    }

    /** Switching maintenance off is never refused; switching it on is, except for hosts that are
        active, in error, or in maintenance already. */
    method SetHostMaintenance(id: int, enabled: bool) returns (ok: bool)
      requires Valid()
      modifies this`hosts, this`log
      ensures Valid() && OthersUnchanged(old(hosts), id)
      ensures ok <==> id in old(hosts) && (enabled ==> old(hosts)[id].state in {Active, Error, Maintenance})
      ensures ok && enabled ==> StateIs(id, Maintenance)
      ensures ok && !enabled ==>
        StateIs(id, if old(hosts)[id].state == Maintenance then Active else old(hosts)[id].state)
      ensures !ok ==> hosts == old(hosts)
    {
      if id !in hosts {
        return false;
      }
      if enabled {
        if hosts[id].state == Maintenance {
          return true;
        }
        ok := SetHostState(id, Maintenance, "manual_maintenance_on");
      } else {
        if hosts[id].state != Maintenance {
          return true;
        }
        ok := SetHostState(id, Active, "manual_maintenance_off");
      }
    }

    /** Outside its backoff a host in error can always be retried, and ends active. */
    method RetryHost(id: int, backingOff: bool) returns (ok: bool)
      requires Valid()
      modifies this`hosts, this`log
      ensures Valid() && OthersUnchanged(old(hosts), id)
      ensures ok <==> !backingOff && id in old(hosts) && old(hosts)[id].state == Error
      ensures ok ==> StateIs(id, Active)
      ensures !ok ==> hosts == old(hosts)
    {
      if backingOff || id !in hosts || hosts[id].state != Error {
        return false;
      }
      ok := SetHostState(id, DnsPending, "manual_retry");
      ok := SetHostState(id, CertPending, "manual_retry");
      ok := SetHostState(id, Active, "manual_retry");
    }

    /** Deactivating a domain disables all its hosts, and only those. */
    method DeactivateDomain(domain: int)
      requires Valid()
      modifies this`hosts, this`log
      ensures Valid() && hosts.Keys == old(hosts.Keys)
      ensures forall id :: id in hosts && hosts[id].domain == domain ==> hosts[id].state == Disabled
      ensures forall id :: id in hosts && hosts[id].domain != domain ==> hosts[id] == old(hosts)[id]
    {
      for id := 1 to nextId
        invariant Valid() && hosts.Keys == old(hosts.Keys)
        invariant forall i :: i in hosts ==> hosts[i].domain == old(hosts)[i].domain
        invariant forall i :: i in hosts && i < id && hosts[i].domain == domain ==> hosts[i].state == Disabled
        invariant forall i :: i in hosts && hosts[i].domain != domain ==> hosts[i] == old(hosts)[i]
      {
        if id in hosts && hosts[id].domain == domain && hosts[id].state != Disabled {
          var ok := SetHostState(id, Disabled, "domain_deactivated");
        }
      }
    }
  }
}
