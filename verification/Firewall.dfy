/** The kernel sets behind the host firewall, and refilling them in chunks. */
module Firewall {

  const CHUNK := 200

  function Elements(s: seq<string>): set<string> {
    set ip | ip in s
  }

  class NftEnforcer {
    var set4: set<string>
    var set6: set<string>

    constructor ()
      ensures set4 == {} && set6 == {}
    {
      set4, set6 := {}, {};
    }

    /** One command that adds elements; it takes effect as a whole or not at all. */
    method AddElements(v4: bool, part: seq<string>) returns (ok: bool)
      requires 0 < |part| <= CHUNK
      modifies this
      ensures set4 == old(set4) + if ok && v4 then Elements(part) else {}
      ensures set6 == old(set6) + if ok && !v4 then Elements(part) else {}
    {
      ok := *;
      if ok {
        if v4 {
          set4 := set4 + Elements(part);
        } else {
          set6 := set6 + Elements(part);
        }
      }
    }

    method Flush(v4: bool) returns (ok: bool)
      modifies this
      ensures set4 == if ok && v4 then {} else old(set4)
      ensures set6 == if ok && !v4 then {} else old(set6)
    {
      ok := *;
      if ok {
        if v4 {
          set4 := {};
        } else {
          set6 := {};
        }
      }
    }

    method Disable() returns (ok: bool)
      modifies this
      ensures ok ==> set4 == {} && set6 == {}
    {
      ok := Flush(true);
      if ok {
        ok := Flush(false);
      }
    }

    method Fill(v4: bool, ips: seq<string>) returns (ok: bool)
      modifies this
      ensures v4 ==> set6 == old(set6) && old(set4) <= set4 <= old(set4) + Elements(ips)
      ensures !v4 ==> set4 == old(set4) && old(set6) <= set6 <= old(set6) + Elements(ips)
      ensures ok && v4 ==> set4 == old(set4) + Elements(ips)
      ensures ok && !v4 ==> set6 == old(set6) + Elements(ips)
    {
      var i := 0;
      while i < |ips|
        invariant 0 <= i
        invariant v4 ==> set6 == old(set6) && set4 == old(set4) + Elements(ips[..Min(i, |ips|)])
        invariant !v4 ==> set4 == old(set4) && set6 == old(set6) + Elements(ips[..Min(i, |ips|)])
      {
        var end := i + CHUNK;
        if end > |ips| {
          end := |ips|;
        }
        assert ips[..end] == ips[..i] + ips[i..end];
        ok := AddElements(v4, ips[i..end]);
        if !ok {
          return;
        }
        i := i + CHUNK;
      }
      assert ips[..|ips|] == ips;
      ok := true;
    }

    /** Flush, then refill. On success the kernel holds exactly the given addresses, however
        many chunks it took; on failure each set is as it was or holds only given addresses. */
    method Replace(ipv4: seq<string>, ipv6: seq<string>) returns (ok: bool)
      modifies this
      ensures ok ==> set4 == Elements(ipv4) && set6 == Elements(ipv6)
      ensures set4 == old(set4) || set4 <= Elements(ipv4)
      ensures set6 == old(set6) || set6 <= Elements(ipv6)
    {
      ok := Flush(true);
      if !ok { return; }
      ok := Flush(false);
      if !ok { return; }
      ok := Fill(true, ipv4);
      if !ok { return; }
      ok := Fill(false, ipv6);
    }
  }

  function Min(a: nat, b: nat): nat {
    if a < b then a else b
  }
}
