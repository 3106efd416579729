/** Two small accumulators: the body of an HTTP reply, and the poll loop of the people counter. */
module Streams {
  import opened Text

  // ---------------------------------------------------------------- tcurl.c

  const INT_LIMIT: nat := 0x8000_0000

  function Flatten(chunks: seq<string>): string {
    if chunks == [] then "" else Flatten(chunks[..|chunks| - 1]) + chunks[|chunks| - 1]
  }

  /** `struct tcurl_payload`. */
  class Body {
    var payload: array?<char>
    var size: nat

    ghost predicate Valid()
      reads this, payload
    {
      if payload == null then size == 0 else payload.Length == size + 1 && payload[size] == '\0'
    }

    ghost function Content(): string
      reads this, payload
      requires Valid()
    {
      if payload == null then "" else payload[..size]
    }

    constructor ()
      ensures Valid() && payload == null && Content() == ""
    {
      payload, size := null, 0;
    }

    /** `_curl_callback`: -1 for an empty chunk, otherwise the whole chunk is taken. */
    method Callback(contents: string) returns (taken: int)
      requires Valid() && size + |contents| + 1 < INT_LIMIT
      modifies this, payload
      ensures Valid() && Content() == old(Content()) + contents
      ensures taken == if contents == "" then -1 else |contents|
      ensures payload == old(payload) || fresh(payload)
      ensures payload == null <==> old(payload) == null && contents == ""
    {
      if contents == "" {
        return -1;
      }
      var realSize := |contents|;
      var grown := new char[size + realSize + 1];
      if payload != null {
        forall i | 0 <= i < size {
          grown[i] := payload[i];
        }
      }
      forall i | 0 <= i < realSize {
        grown[size + i] := contents[i];
      }
      size := size + realSize;
      grown[size] := '\0';
      payload := grown;
      return realSize;
    }
  }

  /** Any split of a body into non-empty chunks leaves the same NUL-terminated text. */
  method Perform(chunks: seq<string>) returns (body: Body)
    requires forall i :: 0 <= i < |chunks| ==> chunks[i] != ""
    requires |Flatten(chunks)| + 1 < INT_LIMIT
    ensures body.Valid() && body.Content() == Flatten(chunks) && body.size == |Flatten(chunks)|
    ensures body.payload == null <==> chunks == []
  {
    body := new Body();
    for n := 0 to |chunks|
      invariant body.Valid() && fresh(body) && (body.payload == null || fresh(body.payload))
      invariant body.Content() == Flatten(chunks[..n])
      invariant body.payload == null <==> n == 0
    {
      FlattenGrows(chunks, n + 1);
      assert chunks[..n + 1][..n] == chunks[..n];
      var taken := body.Callback(chunks[n]);
    }
    assert chunks[..|chunks|] == chunks;
  }

  lemma {:induction false} FlattenGrows(chunks: seq<string>, n: nat)
    requires n <= |chunks|
    ensures |Flatten(chunks[..n])| <= |Flatten(chunks)|
  {
    if n < |chunks| {
      assert chunks[..|chunks| - 1][..n] == chunks[..n];
      FlattenGrows(chunks[..|chunks| - 1], n);
    } else {
      assert chunks[..n] == chunks;
    }
  }

  // ---------------------------------------------------------------- apc100.c

  /** `struct apc100_cumulativeness`. */
  datatype Counts = Counts(entered: int, left: int, count: int)

  const NO_COUNTS := Counts(0, 0, 0)

  /** The reads that succeeded. */
  function Successes(polls: seq<Option<Counts>>): seq<Counts> {
    if polls == [] then []
    else
      var rest, p := Successes(polls[..|polls| - 1]), polls[|polls| - 1];
      if p.None? then rest else rest + [p.value]
  }

  lemma {:induction false} SuccessesCount(polls: seq<Option<Counts>>)
    ensures |Successes(polls)| == |set i | 0 <= i < |polls| && polls[i].Some?|
  {
    if polls == [] {
    } else {
      var n := |polls| - 1;
      SuccessesCount(polls[..n]);
      var before := set i | 0 <= i < n && polls[..n][i].Some?;
      assert (set i | 0 <= i < |polls| && polls[i].Some?) == before + if polls[n].Some? then {n} else {};
    }
  }

  lemma {:induction false} SuccessAt(polls: seq<Option<Counts>>, i: nat)
    requires i < |polls| && polls[i].Some?
    ensures |Successes(polls[..i])| < |Successes(polls)|
    ensures Successes(polls)[|Successes(polls[..i])|] == polls[i].value
  {
    var n := |polls| - 1;
    if i < n {
      SuccessAt(polls[..n], i);
      assert polls[..n][..i] == polls[..i];
    }
  }

  /** The reads that succeeded are all there, in order, and nothing else is. */
  lemma {:induction false} SuccessesLaws(polls: seq<Option<Counts>>)
    ensures |Successes(polls)| == |set i | 0 <= i < |polls| && polls[i].Some?|
    ensures forall i :: 0 <= i < |polls| && polls[i].Some? ==>
              && |Successes(polls[..i])| < |Successes(polls)|
              && Successes(polls)[|Successes(polls[..i])|] == polls[i].value
  {
    SuccessesCount(polls);
    forall i | 0 <= i < |polls| && polls[i].Some?
      ensures |Successes(polls[..i])| < |Successes(polls)|
      ensures Successes(polls)[|Successes(polls[..i])|] == polls[i].value
    {
      SuccessAt(polls, i);
    }
    hide Successes;
  }

  /** The values of `s` that differ from the one before, the first being compared with `from`. */
  function Changes(from: int, s: seq<int>): seq<int> {
    if s == [] then []
    else
      var init := s[..|s| - 1];
      var before := if init == [] then from else init[|init| - 1];
      Changes(from, init) + if s[|s| - 1] == before then [] else [s[|s| - 1]]
  }

  function Entered(cs: seq<Counts>): seq<int> {
    seq(|cs|, i requires 0 <= i < |cs| => cs[i].entered)
  }

  /** What the deliveries tell: the last one is the last value, and no two in a row are equal. */
  lemma {:induction false} ChangesLaws(from: int, s: seq<int>)
    ensures var d := [from] + Changes(from, s);
            && d[|d| - 1] == (if s == [] then from else s[|s| - 1])
            && forall i :: 0 < i < |d| ==> d[i] != d[i - 1]
  {
    if s == [] {
    } else {
      var init := s[..|s| - 1];
      ChangesLaws(from, init);
      var d := [from] + Changes(from, init);
      assert [from] + Changes(from, s) == d + if s[|s| - 1] == d[|d| - 1] then [] else [s[|s| - 1]];
    }
  }

  /** The records of `s` that show another number entered than the one before. */
  function Deliveries(from: Counts, s: seq<Counts>): seq<Counts> {
    if s == [] then []
    else
      var init, c := s[..|s| - 1], s[|s| - 1];
      var before := if init == [] then from else init[|init| - 1];
      Deliveries(from, init) + if c.entered == before.entered then [] else [c]
  }

  /** The numbers delivered are the changes of the numbers read. */
  lemma {:induction false} DeliveriesLaw(from: Counts, s: seq<Counts>)
    ensures Entered(Deliveries(from, s)) == Changes(from.entered, Entered(s))
    ensures forall c :: c in Deliveries(from, s) ==> c in s
  {
    if s == [] {
    } else {
      var init := s[..|s| - 1];
      DeliveriesLaw(from, init);
      assert Entered(s)[..|s| - 1] == Entered(init);
    }
  }

  /** The polling thread's share of `struct apc100`, the callback being set throughout. */
  class Counter {
    var cumulative: Counts
    ghost var delivered: seq<Counts>

    constructor ()
      ensures cumulative == NO_COUNTS && delivered == []
    {
      cumulative, delivered := Counts(0, 0, 0), [];
    }

    /** `_polling`, for as many turns as there are poll results. */
    method Polling(polls: seq<Option<Counts>>)
      modifies this
      ensures var s := Successes(polls);
              && delivered == old(delivered) + Deliveries(old(cumulative), s)
              && cumulative == if s == [] then old(cumulative) else s[|s| - 1]
    {
      for n := 0 to |polls|
        invariant delivered == old(delivered) + Deliveries(old(cumulative), Successes(polls[..n]))
        invariant var s := Successes(polls[..n]); cumulative == if s == [] then old(cumulative) else s[|s| - 1]
      {
        ghost var s := Successes(polls[..n]);
        assert polls[..n + 1][..n] == polls[..n];
        var c := polls[n];
        if c.None? {
          continue;
        }
        assert Successes(polls[..n + 1]) == s + [c.value];
        Delivered(old(cumulative), s, c.value, cumulative);
        if cumulative == c.value {
          continue;
        }
        if cumulative.entered != c.value.entered {
          delivered := delivered + [c.value];
        }
        cumulative := c.value;
      }
      assert polls[..|polls|] == polls;
    }
  }

  lemma {:induction false} Delivered(from: Counts, s: seq<Counts>, c: Counts, before: Counts)
    requires before == if s == [] then from else s[|s| - 1]
    ensures Deliveries(from, s + [c]) == Deliveries(from, s) + if c.entered == before.entered then [] else [c]
    ensures Deliveries(from, s) + [] == Deliveries(from, s)
  {
    assert (s + [c])[..|s|] == s;
  }
}
