/**
 The limiter itself: a map from addresses to shared entries that requests update in place and
 the sweeper deletes from.  Both critical sections are proved against the functions of
 `RateLimit`, where the properties of whole histories are.
 */
module RateLimiting {
  import opened RateLimit

  class Entry {
    var count: int
    var windowEnd: int

    constructor (count: int, windowEnd: int)
      ensures this.count == count && this.windowEnd == windowEnd
    {
      this.count := count;
      this.windowEnd := windowEnd;
    }
  }

  class RateLimiter {
    var entries: map<Ip, Entry>
    const limit: int
    const window: int

    function Settings(): Config {
      Config(limit, window)
    }

    // No two addresses share an entry.
    ghost predicate Valid()
      reads this
    {
      forall x, y :: x in entries && y in entries && x != y ==> entries[x] != entries[y]
    }

    /** The entries as values. */
    ghost function Contents(): Table
      reads this, entries.Values
    {
      map ip | ip in entries :: Window(entries[ip].count, entries[ip].windowEnd)
    }

    constructor (limit: int, window: int)
      ensures Valid() && Contents() == map[] && Settings() == Config(limit, window)
    {
      this.limit := limit;
      this.window := window;
      entries := map[];
    }

    /** The critical section of one request; `admitted` says whether the next handler runs. */
    method Handle(ip: Ip, now: int) returns (admitted: bool)
      requires Valid()
      modifies this, entries.Values
      ensures Valid() && fresh(entries.Values - old(entries.Values))
      ensures admitted == Decide(Settings(), old(Contents()), ip, now)
      ensures Contents() == OnRequest(Settings(), old(Contents()), ip, now)
    {
      if ip !in entries || now > entries[ip].windowEnd {
        var entry := new Entry(1, now + window);
        entries := entries[ip := entry];
        return true;
      }
      var entry := entries[ip];
      entry.count := entry.count + 1;
      if entry.count > limit {
        return false;
      }
      return true;
    }

    /** One sweep: delete every entry whose window has ended, visiting the keys in any order. */
    method Cleanup(now: int)
      requires Valid()
      modifies this
      ensures Valid() && entries.Values <= old(entries.Values)
      ensures Contents() == OnSweep(old(Contents()), now)
    {
      var todo := entries.Keys;
      while todo != {}
        invariant todo <= entries.Keys <= old(entries.Keys)
        invariant forall ip :: ip in entries ==> entries[ip] == old(entries[ip])
        invariant forall ip :: ip in old(entries) && ip !in todo ==> (ip in entries <==> now <= old(entries[ip]).windowEnd)
        decreases |todo|
      {
        var ip :| ip in todo;
        if now > entries[ip].windowEnd {
          entries := entries - {ip};
        }
        todo := todo - {ip};
      }
    }
  }
}
