/**
  The text-map carrier over a message's header table (carrier.go).

  Both carrier types of the package, the one over an outbound `Publishing`
  and the one over an inbound `Delivery`, do nothing but read and write the
  header table of the message they point to, with identical bodies. They are
  modelled once here, over the table itself.
*/
module Carrier {

  /** A header value: AMQP field tables hold strings and values of other types. */
  datatype Value = Str(s: string) | Other(payload: nat)

  /**
    A header table (`amqp091.Table`). Go maps are references, so a table is an
    object whose entries the carrier's `Set` updates in place; the nil map is
    `null`.
  */
  class Table {
    var entries: map<string, Value>

    constructor ()
      ensures entries == map[]
    {
      entries := map[];
    }
  }

  /** The entries of a possibly nil table; reading a nil map sees no entries. */
  function Entries(t: Table?): map<string, Value>
    reads t
  {
    if t == null then map[] else t.entries
  }

  /** The string stored under `key`, or "" when there is none. */
  function Lookup(h: map<string, Value>, key: string): (r: string)
    ensures key !in h ==> r == ""
    ensures key in h && h[key].Str? ==> r == h[key].s
    ensures key in h && !h[key].Str? ==> r == ""
    ensures r != "" ==> key in h && h[key] == Str(r)
  {
    if key !in h then ""
    else match h[key]
      case Str(s) => s
      case Other(_) => ""
  }

  /** Get: a missing key or a value that is not a string reads as "". */
  function Get(t: Table?, key: string): (r: string)
    reads t
    ensures r == Lookup(Entries(t), key)
    ensures t == null ==> r == ""
  {
    if t == null then "" else Lookup(t.entries, key)
  }

  /** Set: overwrite the entry for `key` in place; writing into a nil map panics. */
  method Set(t: Table, key: string, val: string)
    modifies t
    ensures t.entries == old(t.entries)[key := Str(val)]
  {
    t.entries := t.entries[key := Str(val)];
  }

  /** Keys: every key of the table exactly once, in the map's (unspecified) order. */
  method Keys(t: Table?) returns (out: seq<string>)
    ensures |out| == |Entries(t)|
    ensures forall k :: k in out <==> k in Entries(t)
    ensures forall i, j :: 0 <= i < j < |out| ==> out[i] != out[j]
  {
    out := [];
    if t == null {
      return;
    }
    var rest := t.entries.Keys;
    while rest != {}
      invariant rest <= t.entries.Keys
      invariant forall k :: k in out <==> k in t.entries && k !in rest
      invariant forall i, j :: 0 <= i < j < |out| ==> out[i] != out[j]
      invariant |out| + |rest| == |t.entries.Keys|
      decreases rest
    {
      var key :| key in rest;
      out := out + [key];
      rest := rest - {key};
    }
  }

  /** The table after writing each pair in order, as a propagator's inject does through `Set`. */
  function SetAll(h: map<string, Value>, pairs: seq<(string, string)>): map<string, Value>
    decreases |pairs|
  {
    if pairs == [] then h else SetAll(h[pairs[0].0 := Str(pairs[0].1)], pairs[1..])
  }

  /** The set of keys written by a sequence of pairs. */
  function WrittenKeys(pairs: seq<(string, string)>): set<string>
  {
    set i | 0 <= i < |pairs| :: pairs[i].0
  }

  /** Getting a key right after setting it yields the written value; other keys read as before. */
  lemma GetAfterSet(h: map<string, Value>, key: string, val: string, other: string)
    ensures Lookup(h[key := Str(val)], key) == val
    ensures other != key ==> Lookup(h[key := Str(val)], other) == Lookup(h, other)
    ensures (h[key := Str(val)]).Keys == h.Keys + {key}
  {
  }

  /**
    After writing a list of pairs: the keys are the old keys plus the written
    ones, every key not written keeps its value, and a written key holds the
    value of its LAST write.
  */
  lemma {:induction false} SetAllLastWriteWins(h: map<string, Value>, pairs: seq<(string, string)>)
    ensures SetAll(h, pairs).Keys == h.Keys + WrittenKeys(pairs)
    ensures forall k :: k in h && k !in WrittenKeys(pairs) ==> SetAll(h, pairs)[k] == h[k]
    ensures forall i :: 0 <= i < |pairs| && (forall j :: i < j < |pairs| ==> pairs[j].0 != pairs[i].0) ==>
              SetAll(h, pairs)[pairs[i].0] == Str(pairs[i].1)
    decreases |pairs|
  {
    if pairs != [] {
      var h' := h[pairs[0].0 := Str(pairs[0].1)];
      var tail := pairs[1..];
      SetAllLastWriteWins(h', tail);
      assert WrittenKeys(pairs) == {pairs[0].0} + WrittenKeys(tail) by {
        forall k | k in WrittenKeys(pairs) ensures k in {pairs[0].0} + WrittenKeys(tail) {
          var i :| 0 <= i < |pairs| && pairs[i].0 == k;
          if i > 0 { assert tail[i - 1].0 == k; }
        }
        forall k | k in WrittenKeys(tail) ensures k in WrittenKeys(pairs) {
          var i :| 0 <= i < |tail| && tail[i].0 == k;
          assert pairs[i + 1].0 == k;
        }
      }
      forall i | 0 <= i < |pairs| && (forall j :: i < j < |pairs| ==> pairs[j].0 != pairs[i].0)
        ensures SetAll(h, pairs)[pairs[i].0] == Str(pairs[i].1)
      {
        if i == 0 {
          forall j | 0 <= j < |tail| ensures tail[j].0 != pairs[0].0 {
            assert tail[j] == pairs[j + 1];
          }
        } else {
          assert tail[i - 1] == pairs[i];
          assert forall j :: i - 1 < j < |tail| ==> tail[j].0 != tail[i - 1].0 by {
            forall j | i - 1 < j < |tail| ensures tail[j].0 != tail[i - 1].0 {
              assert tail[j] == pairs[j + 1];
            }
          }
        }
      }
    } else {
      assert WrittenKeys(pairs) == {};
    }
  }

  /**
    The scenario of the package's carrier tests: writes "foo", "foo1", "foo1"
    again and "foo2" into an empty table leave exactly three entries, the
    second write of "foo1" winning.
  */
  lemma SetSequenceExample()
    ensures SetAll(map[], [("foo", "bar"), ("foo1", "bar1"), ("foo1", "bar2"), ("foo2", "bar3")])
            == map["foo" := Str("bar"), "foo1" := Str("bar2"), "foo2" := Str("bar3")]
  {
  }
}
