/**
 * The trace-context carrier over a Kafka message's header list: `Get` reads
 * the first header with a key, `Set` overwrites it in place or appends a new
 * header, `Keys` lists the header keys.
 */
module Carrier {

  /** A Kafka record header; its value bytes are taken one character per byte. */
  datatype Header = Header(key: string, value: string)

  /** The position of the first header with `key`, or `|hs|` when there is none. */
  function FirstWith(hs: seq<Header>, key: string): (i: nat)
    ensures i <= |hs|
    ensures forall j :: 0 <= j < i ==> hs[j].key != key
    ensures i < |hs| ==> hs[i].key == key
  {
    if hs == [] then 0
    else if hs[0].key == key then 0
    else 1 + FirstWith(hs[1..], key)
  }

  /** The value `Get(key)` answers: the first match's value, or "" without one. */
  function Lookup(hs: seq<Header>, key: string): (v: string) {
    var i := FirstWith(hs, key);
    if i < |hs| then hs[i].value else ""
  }

  /** The header list `Set(key, value)` leaves behind. */
  function Updated(hs: seq<Header>, key: string, value: string): (updated: seq<Header>) {
    var i := FirstWith(hs, key);
    if i < |hs| then hs[i := hs[i].(value := value)] else hs + [Header(key, value)]
  }

  /** The keys of the headers, in header order. */
  function KeysOf(hs: seq<Header>): (ks: seq<string>)
    ensures |ks| == |hs| && forall i :: 0 <= i < |hs| ==> ks[i] == hs[i].key
  {
    seq(|hs|, i requires 0 <= i < |hs| => hs[i].key)
  }

  /** The carrier wraps a message and works on its header list in place. */
  class MessageCarrier {
    var headers: seq<Header>

    constructor (headers: seq<Header>)
      ensures this.headers == headers
    {
      this.headers := headers;
    }

    /** The value of the first header named `key`, or "" when no header has that name. */
    method Get(key: string) returns (v: string)
      ensures v == Lookup(headers, key)
    {
      var i := 0;
      while i < |headers|
        invariant 0 <= i <= |headers|
        invariant forall j :: 0 <= j < i ==> headers[j].key != key
      {
        if headers[i].key == key {
          assert FirstWith(headers, key) == i;
          return headers[i].value;
        }
        i := i + 1;
      }
      return "";
    }

    /** Overwrites the value of the first header named `key`, or appends one header when there is none. */
    method Set(key: string, value: string)
      modifies this
      ensures headers == Updated(old(headers), key, value)
    {
      var i := 0;
      while i < |headers|
        invariant 0 <= i <= |headers|
        invariant headers == old(headers)
        invariant forall j :: 0 <= j < i ==> headers[j].key != key
      {
        if headers[i].key == key {
          assert FirstWith(headers, key) == i;
          headers := headers[i := headers[i].(value := value)];
          return;
        }
        i := i + 1;
      }
      headers := headers + [Header(key, value)];
    }

    /** The header keys, one per header, in header order. */
    method Keys() returns (keys: seq<string>)
      ensures keys == KeysOf(headers)
    {
      var a := new string[|headers|];
      var i := 0;
      while i < |headers|
        invariant 0 <= i <= |headers|
        invariant forall j :: 0 <= j < i ==> a[j] == headers[j].key
      {
        a[i] := headers[i].key;
        i := i + 1;
      }
      keys := a[..];
    }
  }

  /** `Get` after `Set` on the same key answers the value just set. */
  lemma GetAfterSet(hs: seq<Header>, key: string, value: string)
    ensures Lookup(Updated(hs, key, value), key) == value
  {
    var i := FirstWith(hs, key);
    if i == |hs| {
      var u := hs + [Header(key, value)];
      assert forall j :: 0 <= j < |hs| ==> u[j] == hs[j];
      FirstWithPast(u, key, |hs|);
    }
  }

  /** When no header before `i` has `key` and header `i` has it, `i` is the first match. */
  lemma FirstWithPast(hs: seq<Header>, key: string, i: nat)
    requires i < |hs| && hs[i].key == key
    requires forall j :: 0 <= j < i ==> hs[j].key != key
    ensures FirstWith(hs, key) == i
  {
  }

  /** `Get` on a key with no header answers "". */
  lemma GetAbsent(hs: seq<Header>, key: string)
    requires forall j :: 0 <= j < |hs| ==> hs[j].key != key
    ensures Lookup(hs, key) == ""
  {
  }

  /**
   * `Set` on a present key changes only the first match's value: the length,
   * the keys and every other header stay as they were.
   */
  lemma SetPresentKeepsShape(hs: seq<Header>, key: string, value: string)
    requires exists j :: 0 <= j < |hs| && hs[j].key == key
    ensures var u := Updated(hs, key, value);
            var i := FirstWith(hs, key);
            && |u| == |hs| && i < |hs|
            && KeysOf(u) == KeysOf(hs)
            && u[i] == Header(key, value)
            && forall j :: 0 <= j < |hs| && j != i ==> u[j] == hs[j]
  {
    var j :| 0 <= j < |hs| && hs[j].key == key;
    var i := FirstWith(hs, key);
    assert i <= j;
    var u := Updated(hs, key, value);
    assert forall k :: 0 <= k < |hs| ==> KeysOf(u)[k] == KeysOf(hs)[k];
  }

  /** `Set` on an absent key appends exactly one header at the end. */
  lemma SetAbsentAppends(hs: seq<Header>, key: string, value: string)
    requires forall j :: 0 <= j < |hs| ==> hs[j].key != key
    ensures Updated(hs, key, value) == hs + [Header(key, value)]
  {
  }

  /** Setting the same key to the same value twice is the same as setting it once. */
  lemma SetIdempotent(hs: seq<Header>, key: string, value: string)
    ensures Updated(Updated(hs, key, value), key, value) == Updated(hs, key, value)
  {
    var u := Updated(hs, key, value);
    var i := FirstWith(hs, key);
    if i < |hs| {
      FirstWithPast(u, key, i);
    } else {
      assert forall j :: 0 <= j < |hs| ==> u[j] == hs[j];
      FirstWithPast(u, key, |hs|);
    }
  }

  /** `Set` on one key does not change what `Get` answers for any other key. */
  lemma SetLeavesOtherKeys(hs: seq<Header>, key: string, value: string, other: string)
    requires other != key
    ensures Lookup(Updated(hs, key, value), other) == Lookup(hs, other)
  {
    var u := Updated(hs, key, value);
    var i := FirstWith(hs, key);
    var o := FirstWith(hs, other);
    assert forall j :: 0 <= j < |hs| ==> u[j].key == hs[j].key;
    assert forall j :: 0 <= j < |hs| && hs[j].key == other ==> u[j] == hs[j];
    if o < |hs| {
      FirstWithPast(u, other, o);
    } else if FirstWith(u, other) < |u| {
      assert u[FirstWith(u, other)].key == other;
    }
  }
}
