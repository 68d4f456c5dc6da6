/** The in-process limiter: one slice per key, compacted through its own backing array. */
module Limiter {
  import opened Options
  import opened RateLimit

  /** One key's slice: a backing array and how much of it is in use. */
  class Slice {
    var data: array<int>
    var len: nat

    ghost predicate Valid()
      reads this
    {
      len <= data.Length
    }

    ghost function View(): seq<int>
      reads this, data
      requires Valid()
    {
      data[..len]
    }

    constructor ()
      ensures Valid() && View() == [] && fresh(data)
    {
      data := new int[0];
      len := 0;
    }

    /** Filters the slice through its own backing array: what is kept never overtakes what is read. */
    method Compact(cutoff: int)
      requires Valid()
      modifies this`len, data
      ensures Valid() && data == old(data) && View() == Recent(old(View()), cutoff)
    {
      hide Recent;
      var kept := 0;
      ghost var before := data[..len];
      RecentNone([], cutoff);
      for i := 0 to len
        invariant kept <= i && len == old(len) && data == old(data)
        invariant data[..kept] == Recent(before[..i], cutoff)
        invariant forall k :: i <= k < len ==> data[k] == before[k]
      {
        var item := data[i];
        assert before[..i + 1] == before[..i] + [item];
        RecentSnoc(before[..i], item, cutoff);
        if item > cutoff {
          ghost var left := data[..kept];
          data[kept] := item;
          kept := kept + 1;
          assert data[..kept] == left + [item];
        }
      }
      assert before[..len] == before;
      len := kept;
    }

    /** Appends in the spare capacity, or in a larger copy. */
    method Append(x: int)
      requires Valid()
      modifies this, data
      ensures Valid() && View() == old(View()) + [x]
      ensures data == old(data) || fresh(data)
    {
      if len == data.Length {
        var larger := new int[2 * len + 1];
        for i := 0 to len
          invariant len == old(len) && data == old(data) && data[..] == old(data[..]) && larger[..i] == data[..i]
        {
          larger[i] := data[i];
        }
        data := larger;
      }
      data[len] := x;
      len := len + 1;
    }

    method Allow(w: Window, now: int) returns (ok: bool)
      requires Valid()
      modifies this, data
      ensures Valid() && (data == old(data) || fresh(data))
      ensures (ok, View()) == Decide(w, old(View()), now)
    {
      Compact(now - w.width);
      if len >= w.limit {
        return false;
      }
      Append(now);
      ok := true;
    }
  }

  /** The windows of all users and services; no two share a backing array. */
  class RateLimiter {
    const width: nat
    const limits: map<string, nat>
    const fallback: nat
    var local: map<string, Slice>

    ghost predicate Valid()
      reads this, local.Values, set k | k in local :: local[k].data
    {
      && (forall k :: k in local ==> local[k].Valid())
      && forall j, k :: j in local && k in local && j != k ==>
           local[j] != local[k] && local[j].data != local[k].data
    }

    /** What is remembered for a key. */
    ghost function Remembered(key: string): seq<int>
      requires Valid()
      reads this, local.Values, set k | k in local :: local[k].data
    {
      if key in local then local[key].View() else []
    }

    /** A limit that is missing or not positive is replaced by the one for chat, and that by twenty. */
    constructor (width: nat, configured: map<string, int>)
      ensures Valid() && forall key :: Remembered(key) == []
      ensures fallback == if "chat" in configured && configured["chat"] > 0 then configured["chat"] else 20
      ensures this.width == width && forall s :: s in limits <==> s in configured
      ensures forall s :: s in configured ==> limits[s] == if configured[s] > 0 then configured[s] else fallback
      ensures forall s :: WindowOf(s).width == width
      ensures forall s :: s in configured && configured[s] > 0 ==> WindowOf(s).limit == configured[s]
      ensures forall s :: !(s in configured && configured[s] > 0) ==>
                WindowOf(s).limit == if "chat" in configured && configured["chat"] > 0 then configured["chat"] else 20
    {
      var chat := if "chat" in configured && configured["chat"] > 0 then configured["chat"] else 20;
      this.width := width;
      fallback := chat;
      limits := map s | s in configured :: if configured[s] > 0 then configured[s] else chat;
      local := map[];
    }

    function WindowOf(service: string): Window {
      Window(width, if service in limits && limits[service] > 0 then limits[service] else fallback)
    }

    /** Decides on the user's own window of the service; every other window stays as it was. */
    method AllowLocal(key: string, service: string, now: int) returns (ok: bool)
      requires Valid()
      modifies this`local, local.Values, set k | k in local :: local[k].data
      ensures Valid()
      ensures (ok, Remembered(key)) == Decide(WindowOf(service), old(Remembered(key)), now)
      ensures forall other :: other != key ==> Remembered(other) == old(Remembered(other))
    {
      var slice;
      if key in local {
        slice := local[key];
      } else {
        slice := new Slice();
        local := local[key := slice];
      }
      ok := slice.Allow(WindowOf(service), now);
    }

    /** The reply of Redis decides when there is one, and then nothing is remembered here. */
    method Allow(key: string, service: string, now: int, reply: Option<bool>) returns (ok: bool)
      requires Valid()
      modifies this`local, local.Values, set k | k in local :: local[k].data
      ensures Valid()
      ensures reply.Some? ==> ok == reply.value && forall k :: Remembered(k) == old(Remembered(k))
      ensures reply.None? ==> (ok, Remembered(key)) == Decide(WindowOf(service), old(Remembered(key)), now)
      ensures forall other :: other != key ==> Remembered(other) == old(Remembered(other))
    {
      if reply.Some? {
        return reply.value;
      }
      ok := AllowLocal(key, service, now);
    }
  }
}
