/**
 The in-process event bus of events/bus.go.

 The listener lists are Go slices: a header (backing array and length) over an array that
 several headers may share.  `On` appends in place when the array has room, so a header that
 an `Emit` read earlier still points into an array that is being written to.
 */
module EventBus {
  import opened Wiring

  /** A slice header; its capacity is the length of the array. */
  datatype Slice = Slice(arr: array<Listener>, len: nat) {
    ghost function Items(): seq<Listener>
      reads arr
    {
      if len <= arr.Length then arr[..len] else arr[..]
    }
  }

  lemma AddedHead(rs: seq<Registration>, name: string, before: seq<Listener>, mid: seq<Listener>)
    requires rs != []
    requires mid == if rs[0].name == name then before + [rs[0].fn] else before
    ensures mid + Added(rs[1..], name) == before + Added(rs, name)
  {
  }

  class Bus {
    var listeners: map<string, Slice>
    // Every header that was ever stored in the map, hence every header a reader may hold.
    ghost var headers: set<Slice>
    ghost var arrays: set<array<Listener>>

    ghost predicate Valid()
      reads this
    {
      && (forall n :: n in listeners ==> listeners[n] in headers)
      && (forall h :: h in headers ==> h.len <= h.arr.Length && h.arr in arrays)
      && (forall m, n :: m in listeners && n in listeners && m != n ==> listeners[m].arr != listeners[n].arr)
      && (forall h, n :: h in headers && n in listeners && h.arr == listeners[n].arr ==> h.len <= listeners[n].len)
    }

    ghost function Registered(name: string): seq<Listener>
      reads this, if name in listeners then {listeners[name].arr} else {}
    {
      if name in listeners then listeners[name].Items() else []
    }

    constructor ()
      ensures Valid() && arrays == {}
      ensures forall n :: Registered(n) == []
    {
      listeners := map[];
      headers, arrays := {}, {};
    }

    /**
     Register a listener.  `spare` is the room the runtime leaves when it has to move the list
     to a larger array.  No header handed out before changes its contents.
     */
    method On(name: string, fn: Listener, spare: nat)
      requires Valid()
      modifies this, arrays
      ensures Valid()
      ensures old(headers) <= headers && fresh(arrays - old(arrays))
      ensures forall h :: h in old(headers) ==> h.Items() == old(h.Items())
      ensures Registered(name) == old(Registered(name)) + [fn]
      ensures forall n :: n != name ==> Registered(n) == old(Registered(n))
    {
      var header: Slice;
      if name in listeners && listeners[name].len < listeners[name].arr.Length {
        header := Slice(listeners[name].arr, listeners[name].len + 1);
      } else {
        header := Moved(name, spare);
      }
      header.arr[header.len - 1] := fn;
      assert header.Items() == old(Registered(name)) + [fn];
      Store(name, header);
    }

    /** Put a header under a name: its list grown in place by one, or moved to a new array. */
    method Store(name: string, header: Slice)
      requires Valid() && header.len <= header.arr.Length
      requires if name in listeners && header.arr == listeners[name].arr
               then header.len == listeners[name].len + 1
               else header.arr !in arrays
      modifies this
      ensures Valid()
      ensures listeners == old(listeners)[name := header]
      ensures headers == old(headers) + {header} && arrays == old(arrays) + {header.arr}
    {
      listeners := listeners[name := header];
      headers := headers + {header};
      arrays := arrays + {header.arr};
    }

    /** A larger array that starts with the listeners of `name`, for one more of them. */
    method Moved(name: string, spare: nat) returns (header: Slice)
      requires Valid()
      ensures fresh(header.arr) && header.len == |Registered(name)| + 1 <= header.arr.Length
      ensures header.arr[..header.len - 1] == Registered(name)
    {
      var len := if name in listeners then listeners[name].len else 0;
      var arr := new Listener[len + 1 + spare];
      for i := 0 to len
        invariant arr[..i] == Registered(name)[..i]
      {
        arr[i] := listeners[name].arr[i];
      }
      header := Slice(arr, len + 1);
    }

    /** The registrations other goroutines make between two listener calls. */
    method OnAll(rs: seq<Registration>, spare: nat)
      requires Valid()
      modifies this, arrays
      ensures Valid()
      ensures old(headers) <= headers && fresh(arrays - old(arrays))
      ensures forall h :: h in old(headers) ==> h.Items() == old(h.Items())
      ensures forall n :: Registered(n) == old(Registered(n)) + Added(rs, n)
    {
      if rs != [] {
        On(rs[0].name, rs[0].fn, spare);
        label rest:
        OnAll(rs[1..], spare);
        forall n ensures Registered(n) == old(Registered(n)) + Added(rs, n) {
          AddedHead(rs, n, old(Registered(n)), old@rest(Registered(n)));
        }
      }
    }

    /**
     Call the listeners of `name`.  `between[i]` is what other goroutines register before the
     call number `i`.  The calls are exactly the listeners registered when the list was read,
     each once and in order, whatever is appended meanwhile.
     */
    method Emit(name: string, between: seq<seq<Registration>>, spare: nat) returns (calls: seq<Listener>)
      requires Valid()
      modifies this, arrays
      ensures Valid()
      ensures calls == old(Registered(name))
    {
      calls := [];
      if name !in listeners {
        return;
      }
      var fns := listeners[name];
      ghost var seen := fns.arr[..fns.len];
      var i := 0;
      while i < fns.len
        invariant 0 <= i <= fns.len
        invariant Valid() && fns in headers && fresh(arrays - old(arrays))
        invariant fns.arr[..fns.len] == seen
        invariant calls == seen[..i]
      {
        if i < |between| {
          OnAll(between[i], spare);
        }
        calls := calls + [fns.arr[..fns.len][i]];
        i := i + 1;
      }
    }
  }

  /** The bus after set-up; no listener is registered later. */
  method SetUp(ws: bool, queue: bool, spare: nat) returns (bus: Bus)
    ensures bus.Valid()
    ensures forall e: Event :: bus.Registered(e.Name()) == Lookup(Wired(ws, queue), e.Name())
  {
    bus := new Bus();
    bus.OnAll(Registrations(ws, queue), spare);
  }
}
