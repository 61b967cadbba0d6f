/** The one-minute burst window behind the XP multiplier. Entries idle for more than two minutes
    are pruned on every call; nobody can tell. */
module BurstWindow {
  import opened Options
  import opened ThreatSignals
  import opened Time

  /** A call: the source, the primary signal of the event, and the time. */
  datatype Call = Call(ip: string, primary: string, now: int)

  datatype Window = Window(start: int, hits: map<string, nat>)

  function Hits(w: Window, primary: string): nat {
    if primary in w.hits then w.hits[primary] else 0
  }

  function Bumped(w: Option<Window>, primary: string, now: int): Window {
    var open := if w.None? || now - w.value.start > MINUTE then Window(now, map[]) else w.value;
    Window(open.start, open.hits[primary := Hits(open, primary) + 1])
  }

  /** The window of an IP in a world without pruning. */
  function Unpruned(log: seq<Call>, ip: string): Option<Window> {
    if |log| == 0 then None else
      var last := log[|log| - 1];
      var before := Unpruned(log[..|log| - 1], ip);
      if last.ip != ip then before else Some(Bumped(before, last.primary, last.now))
  }

  // ---------- A reference without windows ----------

  /** The call at which the IP's current window was opened: a call of the IP that came more
      than a minute after the previous such call. `|log|` if the IP has none. */
  function Opening(log: seq<Call>, ip: string): (at: nat)
    ensures at <= |log|
    ensures at < |log| ==> log[at].ip == ip
  {
    if |log| == 0 then 0 else
      var n := |log| - 1;
      var at := Opening(log[..n], ip);
      if log[n].ip != ip then (if at == n then |log| else at)
      else if at == n || log[n].now - log[at].now > MINUTE then n
      else at
  }

  /** Calls of the IP with this primary signal from position `from` on. */
  function SamePrimary(log: seq<Call>, ip: string, primary: string, from: nat): nat {
    if |log| <= from then 0 else
      var last := log[|log| - 1];
      SamePrimary(log[..|log| - 1], ip, primary, from) + (if last.ip == ip && last.primary == primary then 1 else 0)
  }

  /** The window is that reference: it starts at the opening call and counts the calls since. */
  lemma {:induction false} WindowCountsSinceOpening(log: seq<Call>, ip: string, primary: string)
    ensures Unpruned(log, ip).Some? <==> Opening(log, ip) < |log|
    ensures Unpruned(log, ip).Some? ==>
      && Unpruned(log, ip).value.start == log[Opening(log, ip)].now
      && Hits(Unpruned(log, ip).value, primary) == SamePrimary(log, ip, primary, Opening(log, ip))
    decreases |log|
  {
    if |log| > 0 {
      var n := |log| - 1;
      WindowCountsSinceOpening(log[..n], ip, primary);
      if Opening(log, ip) == n {
        assert SamePrimary(log[..n], ip, primary, n) == 0;
      }
    }
  }

  class BurstWindows {
    var windows: map<string, Window>
    ghost var log: seq<Call>
    ghost var clock: int

    /** A stored window is the unpruned one; a pruned one is more than two minutes old. */
    ghost predicate Valid()
      reads this
    {
      && (forall ip :: ip in windows ==> Unpruned(log, ip) == Some(windows[ip]))
      && (forall ip :: ip !in windows && Unpruned(log, ip).Some? ==>
            clock - Unpruned(log, ip).value.start > 2 * MINUTE)
    }

    constructor (ghost now: int)
      ensures Valid() && log == [] && clock == now
    {
      windows, log, clock := map[], [], now;
    }

    /** The burst factor, in tenths, depends only on how many calls of the IP had the same
        primary signal since its window was opened. */
    method Bump(ip: string, top: string, now: int) returns (tenths: nat)
      requires Valid() && now >= clock
      modifies this
      ensures Valid() && clock == now
      ensures log == old(log) + [Call(ip, Primary(top), now)]
      ensures tenths == BurstTenths(SamePrimary(log, ip, Primary(top), Opening(log, ip)))
    {
      Prune(now);
      var primary := Primary(top);
      var stored := if ip in windows then Some(windows[ip]) else None;
      var w := Bumped(stored, primary, now);
      ghost var before := log;
      assert w == Bumped(Unpruned(before, ip), primary, now);
      windows := windows[ip := w];
      log := log + [Call(ip, primary, now)];
      assert log[..|before|] == before;
      WindowCountsSinceOpening(log, ip, primary);
      var n := Hits(w, primary);
      tenths := if n >= 8 then 20 else if n >= 5 then 15 else if n >= 3 then 12 else 10;
    }

    method Prune(now: int)
      requires Valid() && now >= clock
      modifies this
      ensures Valid() && clock == now && log == old(log)
    {
      var todo := windows.Keys;
      clock := now;
      while todo != {}
        invariant todo <= windows.Keys && clock == now && log == old(log)
        invariant Valid()
      {
        var ip :| ip in todo;
        todo := todo - {ip};
        if now - windows[ip].start > 2 * MINUTE {
          windows := windows - {ip};
        }
      }
    }
  }

  function Primary(top: string): string {
    if top == "" then "behavior.unknown_host" else top
  }
}
