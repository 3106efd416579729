/** The growing text buffer of `packetize.c`. The caller owns the `char *` and threads the
    capacity from call to call. */
module Payloads {
  import opened Text

  const BLOCK: nat := 512

  /** The capacity a text of length `n` ends up in: the least whole number of blocks with
      room for the terminator. */
  function CapacityFor(n: nat): (c: nat)
    ensures c % BLOCK == 0 && n + 1 <= c < n + 1 + BLOCK
  {
    BLOCK * (n / BLOCK + 1)
  }

  /** A message of less than one block never needs more than one block more. */
  lemma {:induction false} CapacityStep(n: nat, m: nat)
    requires m < BLOCK
    ensures CapacityFor(n + m) == if n + m + 1 <= CapacityFor(n) then CapacityFor(n) else CapacityFor(n) + BLOCK
    ensures CapacityFor(m) == BLOCK
  {
  }

  /** `strlen`: the offset of the first NUL. */
  method Strlen(bytes: array<char>, ghost text: string) returns (n: nat)
    requires '\0' !in text && |text| < bytes.Length && bytes[|text|] == '\0'
    requires forall i :: 0 <= i < |text| ==> bytes[i] == text[i]
    ensures n == |text|
  {
    n := 0;
    while bytes[n] != '\0'
      invariant n <= |text|
      decreases |text| - n
    {
      n := n + 1;
    }
  }

  class Payload {
    /** The `char *` itself; NULL before the first append. */
    var bytes: array?<char>
    ghost var text: string
    ghost var Repr: set<object>

    ghost predicate Valid()
      reads this, Repr
      ensures Valid() ==> this in Repr
    {
      && this in Repr
      && if bytes == null then text == ""
      else
        && bytes in Repr
        && '\0' !in text
        && bytes.Length == CapacityFor(|text|)
        && (forall i :: 0 <= i < |text| ==> bytes[i] == text[i])
        && (forall i :: |text| <= i < bytes.Length ==> bytes[i] == '\0')
    }

    ghost function Capacity(): nat
      reads this
    {
      if bytes == null then 0 else bytes.Length
    }

    constructor ()
      ensures Valid() && fresh(Repr) && bytes == null && text == "" && Capacity() == 0
    {
      bytes := null;
      text := "";
      Repr := {this};
    }

    /** `realloc` to one more block, then `memset` of the new part. */
    method Grow(payloadSize: nat)
      requires Valid() && payloadSize == Capacity()
      modifies this`bytes
      ensures bytes != null && fresh(bytes) && bytes.Length == payloadSize + BLOCK
      ensures forall i :: 0 <= i < |text| ==> bytes[i] == text[i]
      ensures forall i :: |text| <= i < bytes.Length ==> bytes[i] == '\0'
    {
      var grown := new char[payloadSize + BLOCK];
      if bytes != null {
        forall i | 0 <= i < payloadSize {
          grown[i] := bytes[i];
        }
      }
      forall i | payloadSize <= i < payloadSize + BLOCK {
        grown[i] := '\0';
      }
      bytes := grown;
    }

    /** `packetize_payload`, the formatted message being at most 511 bytes: it is first printed
        into a scratch buffer of one block. */
    method Packetize(payloadSize: nat, message: CText) returns (newSize: nat)
      requires Valid() && payloadSize == Capacity() && |message| < BLOCK
      modifies Repr
      ensures Valid() && fresh(Repr - old(Repr))
      ensures bytes != null && newSize == Capacity()
      ensures text == old(text) + message
    {
      CapacityStep(|text|, |message|);
      newSize := payloadSize;
      var available := 0;
      if bytes != null {
        var used := Strlen(bytes, text);
        available := payloadSize - used;
      }
      if |message| + 1 > available {
        Grow(payloadSize);
        newSize := newSize + BLOCK;
      }
      var at := Strlen(bytes, text);
      forall i | 0 <= i < |message| {
        bytes[at + i] := message[i];
      }
      bytes[at + |message|] := '\0';
      text := text + message;
      Repr := Repr + {bytes};
      assert forall i :: 0 <= i < |text| ==> bytes[i] == text[i];
    }
  }
}
