/**
 * pqWidget: a signal/slot registry.  `connections` maps a signal name to the
 * slots connected to it, in connection order, duplicates included.  Slots
 * are identities; emitting records the calls it makes rather than running
 * them.
 */
module PqWidget {
  /** A connected callable, by identity. */
  datatype Slot = Slot(id: nat)

  /** A value passed with a signal. */
  datatype Arg = Str(s: string) | Strs(ss: seq<string>)

  /** One emit(signal, args) of a widget, recorded in emission order. */
  datatype Emission = Emission(signal: string, args: seq<Arg>)

  /** One call of a slot with the emitted arguments. */
  datatype Call = Call(slot: Slot, args: seq<Arg>)

  type Connections = map<string, seq<Slot>>

  /** The slots connected to `signal`; a signal without an entry has none. */
  function Slots(c: Connections, signal: string): seq<Slot> {
    if signal in c then c[signal] else []
  }

  /** Python's list.remove, when `x` is present: drop its first occurrence only. */
  function RemoveFirst(s: seq<Slot>, x: Slot): (r: seq<Slot>)
    ensures x !in s ==> r == s
    ensures x in s ==> |r| == |s| - 1
  {
    if s == [] then []
    else if s[0] == x then s[1..]
    else
      assert x in s ==> x in s[1..];
      [s[0]] + RemoveFirst(s[1..], x)
  }

  /** list.remove drops exactly one copy of the slot, when there is one. */
  lemma {:induction false} RemoveFirstMultiset(s: seq<Slot>, x: Slot)
    ensures multiset(RemoveFirst(s, x)) == multiset(s) - multiset{x}
  {
    if s != [] {
      assert s == [s[0]] + s[1..];
      if s[0] != x {
        RemoveFirstMultiset(s[1..], x);
      }
    }
  }

  /** Removing the first occurrence, at index k, keeps the slots before and after it in order. */
  lemma {:induction false} RemoveFirstAt(s: seq<Slot>, x: Slot, k: nat)
    requires k < |s| && s[k] == x
    requires forall j :: 0 <= j < k ==> s[j] != x
    ensures RemoveFirst(s, x) == s[..k] + s[k + 1..]
  {
    if k == 0 {
      assert s[..0] + s[1..] == s[1..];
    } else {
      var t := s[1..];
      assert s[0] != x;
      forall j | 0 <= j < k - 1
        ensures t[j] != x
      {
        assert t[j] == s[j + 1];
      }
      RemoveFirstAt(t, x, k - 1);
      assert RemoveFirst(s, x) == [s[0]] + RemoveFirst(t, x);
      assert t[..k - 1] == s[1..k] && t[k..] == s[k + 1..];
      assert [s[0]] + (s[1..k] + s[k + 1..]) == s[..k] + s[k + 1..];
    }
  }

  /** The registry after connect(signal, slot). */
  function ConnectSpec(c: Connections, signal: string, slot: Slot): Connections {
    c[signal := Slots(c, signal) + [slot]]
  }

  /** The registry after disconnect(signal, slot). */
  function DisconnectSpec(c: Connections, signal: string, slot: Slot): Connections {
    if signal in c && slot in c[signal] then c[signal := RemoveFirst(c[signal], slot)] else c
  }

  /**
   * connect gives the signal an entry if it had none and appends the slot to
   * it; every other signal keeps its slots.
   */
  lemma ConnectFrame(c: Connections, signal: string, slot: Slot, other: string)
    ensures ConnectSpec(c, signal, slot).Keys == c.Keys + {signal}
    ensures Slots(ConnectSpec(c, signal, slot), signal) == Slots(c, signal) + [slot]
    ensures other != signal ==> Slots(ConnectSpec(c, signal, slot), other) == Slots(c, other)
  {
  }

  /**
   * disconnect keeps every key, even a signal left with no slots; it drops
   * the first connection of the slot, if any, and touches no other signal.
   */
  lemma DisconnectFrame(c: Connections, signal: string, slot: Slot, other: string)
    ensures DisconnectSpec(c, signal, slot).Keys == c.Keys
    ensures Slots(DisconnectSpec(c, signal, slot), signal) == RemoveFirst(Slots(c, signal), slot)
    ensures other != signal ==> Slots(DisconnectSpec(c, signal, slot), other) == Slots(c, other)
  {
  }

  /** The calls emit(signal, args) makes: each connection once, in connection order, all with `args`. */
  function EmitSpec(c: Connections, signal: string, args: seq<Arg>): (calls: seq<Call>)
    ensures |calls| == |Slots(c, signal)|
    ensures forall i :: 0 <= i < |calls| ==> calls[i] == Call(Slots(c, signal)[i], args)
    ensures signal !in c ==> calls == []
  {
    seq(|Slots(c, signal)|, i requires 0 <= i < |Slots(c, signal)| => Call(Slots(c, signal)[i], args))
  }

  /** A connection made is the last one called on the next emit. */
  lemma ConnectThenEmit(c: Connections, signal: string, slot: Slot, args: seq<Arg>)
    ensures EmitSpec(ConnectSpec(c, signal, slot), signal, args) == EmitSpec(c, signal, args) + [Call(slot, args)]
  {
  }

  /**
   * Disconnecting a slot undoes connecting it when it was not connected
   * before, except that the signal keeps its (possibly empty) entry.
   */
  lemma ConnectDisconnect(c: Connections, signal: string, slot: Slot)
    requires slot !in Slots(c, signal)
    ensures DisconnectSpec(ConnectSpec(c, signal, slot), signal, slot) == c[signal := Slots(c, signal)]
  {
    RemoveAppended(Slots(c, signal), slot);
  }

  lemma RemoveAppended(s: seq<Slot>, x: Slot)
    requires x !in s
    ensures RemoveFirst(s + [x], x) == s
  {
    RemoveFirstAt(s + [x], x, |s|);
    assert (s + [x])[..|s|] == s;
  }

  /**
   * When the slot was already connected, connect then disconnect keeps the
   * same connections but moves that slot's first connection to the end.
   */
  lemma ConnectDisconnectConnected(c: Connections, signal: string, slot: Slot)
    requires slot in Slots(c, signal)
    ensures DisconnectSpec(ConnectSpec(c, signal, slot), signal, slot)
            == c[signal := RemoveFirst(Slots(c, signal), slot) + [slot]]
  {
    RemoveFirstAppend(Slots(c, signal), slot, slot);
  }

  lemma {:induction false} RemoveFirstAppend(s: seq<Slot>, x: Slot, y: Slot)
    requires x in s
    ensures RemoveFirst(s + [y], x) == RemoveFirst(s, x) + [y]
  {
    assert (s + [y])[0] == s[0];
    assert (s + [y])[1..] == s[1..] + [y];
    if s[0] != x {
      RemoveFirstAppend(s[1..], x, y);
    }
  }

  /** For instance slots [a, b] with a connected again and then disconnected become [b, a]. */
  lemma ConnectDisconnectReorders()
    ensures RemoveFirst([Slot(0), Slot(1)] + [Slot(0)], Slot(0)) == [Slot(1), Slot(0)]
  {
    assert [Slot(0), Slot(1)] + [Slot(0)] == [Slot(0), Slot(1), Slot(0)];
    assert [Slot(0), Slot(1), Slot(0)][1..] == [Slot(1), Slot(0)];
  }

  /** Disconnecting reduces the slot's connection count by one, to no lower than zero. */
  lemma DisconnectCount(c: Connections, signal: string, slot: Slot)
    ensures multiset(Slots(DisconnectSpec(c, signal, slot), signal))[slot]
            == if multiset(Slots(c, signal))[slot] > 0 then multiset(Slots(c, signal))[slot] - 1 else 0
  {
    RemoveFirstMultiset(Slots(c, signal), slot);
  }

  class Widget {
    var connections: Connections

    constructor()
      ensures connections == map[]
    {
      connections := map[];
    }

    method Connect(signal: string, slot: Slot)
      modifies this
      ensures connections == ConnectSpec(old(connections), signal, slot)
    {
      if signal !in connections {
        connections := connections[signal := []];
      }
      connections := connections[signal := connections[signal] + [slot]];
    }

    method Disconnect(signal: string, slot: Slot)
      modifies this
      ensures connections == DisconnectSpec(old(connections), signal, slot)
    {
      if signal in connections {
        if slot in connections[signal] {
          connections := connections[signal := RemoveFirst(connections[signal], slot)];
        }
      }
    }

    method Emit(signal: string, args: seq<Arg>) returns (calls: seq<Call>)
      ensures calls == EmitSpec(connections, signal, args)
    {
      calls := [];
      if signal in connections {
        var slots := connections[signal];
        for i := 0 to |slots|
          invariant calls == EmitSpec(connections, signal, args)[..i]
        {
          calls := calls + [Call(slots[i], args)];
        }
      }
    }
  }
}
