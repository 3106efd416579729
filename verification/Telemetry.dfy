/** The wire grammar of sensor data: what a message says, written as printer and decoder. */
module Telemetry {
  import opened Text
  import opened Grouping

  datatype Message = Message(topic: string, payload: string)
  datatype Reading = Reading(time: uint64, value: string)
  datatype Series = Series(id: string, readings: seq<Reading>)

  // ---------------------------------------------------------------- time stamps

  /** `_now_ms`: the `k`-th call to the clock returns `clock(k)`. */
  type Clock = nat -> uint64

  /** How many entries have no time of their own. */
  function Unstamped(vs: seq<Value>): nat {
    if vs == [] then 0
    else Unstamped(vs[..|vs| - 1]) + if vs[|vs| - 1].time == 0 then 1 else 0
  }

  function StampOne(v: Value, clock: Clock, k: nat): Reading {
    Reading(if v.time != 0 then v.time else clock(k), v.value)
  }

  /** The readings of the entries; a zero time is replaced by the clock, which has been read
      `k` times before. */
  function Stamp(vs: seq<Value>, clock: Clock, k: nat): (rs: seq<Reading>)
    ensures |rs| == |vs|
  {
    if vs == [] then []
    else
      var init := vs[..|vs| - 1];
      Stamp(init, clock, k) + [StampOne(vs[|vs| - 1], clock, k + Unstamped(init))]
  }

  lemma {:induction false} StampAppend(vs: seq<Value>, v: Value, clock: Clock, k: nat)
    ensures Stamp(vs + [v], clock, k) == Stamp(vs, clock, k) + [StampOne(v, clock, k + Unstamped(vs))]
    ensures Unstamped(vs + [v]) == Unstamped(vs) + if v.time == 0 then 1 else 0
  {
    assert (vs + [v])[..|vs + [v]| - 1] == vs;
  }

  function UnstampedGroups(gs: seq<Group>): nat {
    if gs == [] then 0 else UnstampedGroups(gs[..|gs| - 1]) + Unstamped(gs[|gs| - 1].values)
  }

  function StampGroups(gs: seq<Group>, clock: Clock, k: nat): (ss: seq<Series>)
    ensures |ss| == |gs|
  {
    if gs == [] then []
    else
      var init, g := gs[..|gs| - 1], gs[|gs| - 1];
      StampGroups(init, clock, k) + [Series(g.id, Stamp(g.values, clock, k + UnstampedGroups(init)))]
  }

  // ---------------------------------------------------------------- printing

  /** What `%lld` makes of an unsigned 64-bit number. */
  function Signed64(x: uint64): int {
    if x < 0x8000_0000_0000_0000 then x else x - 0x1_0000_0000_0000_0000
  }

  function Fields(rs: seq<Reading>): seq<string> {
    if rs == [] then [] else [Decimal(Signed64(rs[0].time)), rs[0].value] + Fields(rs[1..])
  }

  /** `{time},{value},...` */
  function SeriesText(rs: seq<Reading>): string {
    Join(Fields(rs), ",")
  }

  function Item(s: Series): string {
    "\"" + s.id + "\": [" + SeriesText(s.readings) + "]"
  }

  function Items(ss: seq<Series>): seq<string> {
    if ss == [] then [] else [Item(ss[0])] + Items(ss[1..])
  }

  /** `{"id": [time,value,...], "id": [...]}` */
  function GroupedText(ss: seq<Series>): string {
    "{" + Join(Items(ss), ", ") + "}"
  }

  function GatewayTopic(gw: string): string {
    "v/a/g/" + gw
  }

  function SensorTopic(gw: string, id: string): string {
    "v/a/g/" + gw + "/s/" + id
  }

  // The fragments the printing loops append one by one.

  function ReadingFragment(first: bool, r: Reading): string {
    (if first then "" else ",") + Decimal(Signed64(r.time)) + "," + r.value
  }

  function HeaderFragment(first: bool, id: string): string {
    (if first then "{\"" else ", \"") + id + "\": ["
  }

  /** The grouped text before its closing brace. */
  function OpenText(ss: seq<Series>): string {
    if ss == [] then "" else "{" + Join(Items(ss), ", ")
  }

  lemma {:induction false} FieldsAppend(rs: seq<Reading>, r: Reading)
    ensures Fields(rs + [r]) == Fields(rs) + [Decimal(Signed64(r.time)), r.value]
  {
    if rs == [] {
    } else {
      assert (rs + [r])[1..] == rs[1..] + [r];
      FieldsAppend(rs[1..], r);
    }
  }

  lemma {:induction false} SeriesTextAppend(rs: seq<Reading>, r: Reading)
    ensures SeriesText(rs + [r]) == SeriesText(rs) + ReadingFragment(rs == [], r)
  {
    FieldsAppend(rs, r);
    var last := [Decimal(Signed64(r.time)), r.value];
    assert Join(last, ",") == Decimal(Signed64(r.time)) + "," + r.value by {
      assert last[1..] == [r.value];
    }
    if rs == [] {
      assert Fields(rs) + last == last;
    } else {
      JoinAppend(Fields(rs), last, ",");
      assert SeriesText(rs) + "," + Join(last, ",") == SeriesText(rs) + ReadingFragment(false, r);
    }
  }

  lemma {:induction false} ItemsAppend(ss: seq<Series>, s: Series)
    ensures Items(ss + [s]) == Items(ss) + [Item(s)]
  {
    if ss == [] {
    } else {
      assert (ss + [s])[1..] == ss[1..] + [s];
      ItemsAppend(ss[1..], s);
    }
  }

  lemma {:induction false} OpenTextAppend(ss: seq<Series>, s: Series)
    ensures OpenText(ss + [s]) == OpenText(ss) + HeaderFragment(ss == [], s.id) + SeriesText(s.readings) + "]"
  {
    ItemsAppend(ss, s);
    HeaderThenBody(Join(Items(ss), ", "), s.id, SeriesText(s.readings));
    if ss == [] {
      assert Items(ss) + [Item(s)] == [Item(s)];
    } else {
      JoinAppend(Items(ss), [Item(s)], ", ");
    }
  }

  lemma {:induction false} HeaderThenBody(items: string, id: string, body: string)
    ensures var item := "\"" + id + "\": [" + body + "]";
            && "{" + (items + ", " + item) == ("{" + items) + HeaderFragment(false, id) + body + "]"
            && "{" + item == "" + HeaderFragment(true, id) + body + "]"
  {
    var tail := id + ("\": [" + (body + "]"));
    var item := "\"" + id + "\": [" + body + "]";
    assert item == "\"" + tail;
    assert ", " + item == ", \"" + tail;
    assert "{" + item == "{\"" + tail;
    assert HeaderFragment(false, id) + body + "]" == ", \"" + tail;
    assert HeaderFragment(true, id) + body + "]" == "{\"" + tail;
    assert "{" + (items + ", " + item) == ("{" + items) + (", " + item);
  }

  lemma {:induction false} OpenTextClosed(ss: seq<Series>)
    requires ss != []
    ensures "" + OpenText(ss) + "}" == GroupedText(ss)
  {
    hide Join, Items;
    assert "" + OpenText(ss) == "{" + Join(Items(ss), ", ");
  }

  // ---------------------------------------------------------------- decoding

  function DecodeTime(s: string): Option<uint64> {
    match ParseDecimal(s)
    case None => None
    case Some(n) =>
      if 0 <= n < 0x8000_0000_0000_0000 then Some(n)
      else if -0x8000_0000_0000_0000 <= n < 0 then Some(n + 0x1_0000_0000_0000_0000)
      else None
  }

  function Pairs(fields: seq<string>): Option<seq<Reading>> {
    if fields == [] then Some([])
    else if |fields| == 1 then None
    else
      match DecodeTime(fields[0])
      case None => None
      case Some(t) =>
        match Pairs(fields[2..])
        case None => None
        case Some(rest) => Some([Reading(t, fields[1])] + rest)
  }

  function DecodeSeries(text: string): Option<seq<Reading>> {
    Pairs(Split(text, ','))
  }

  /** Past any blanks and then past `c`. */
  function Expect(t: string, c: char): (rest: Option<string>)
    ensures rest.Some? ==> |rest.value| < |t|
  {
    if t == "" then None
    else if t[0] == c then Some(t[1..])
    else if t[0] == ' ' then Expect(t[1..], c)
    else None
  }

  /** The text before the first `c`, and the text after it. */
  function Until(t: string, c: char): (r: Option<(string, string)>)
    ensures r.Some? ==> |r.value.1| < |t|
  {
    var i := IndexOf(t, c);
    if i == |t| then None else Some((t[..i], t[i + 1..]))
  }

  /** One `"id": [ ... ]` and what follows it. */
  function DecodeItem(t: string): (r: Option<(Series, string)>)
    ensures r.Some? ==> |r.value.1| < |t|
  {
    match Expect(t, '"')
    case None => None
    case Some(t1) =>
      match Until(t1, '"')
      case None => None
      case Some((id, t2)) =>
        match Expect(t2, ':')
        case None => None
        case Some(t3) =>
          match Expect(t3, '[')
          case None => None
          case Some(t4) =>
            match Until(t4, ']')
            case None => None
            case Some((body, rest)) =>
              match DecodeSeries(body)
              case None => None
              case Some(rs) => Some((Series(id, rs), rest))
  }

  /** Items separated by commas, up to the closing brace that ends the text. */
  function DecodeItems(t: string): Option<seq<Series>>
    decreases |t|
  {
    match DecodeItem(t)
    case None => None
    case Some((s, rest)) =>
      if Expect(rest, '}') == Some("") then Some([s])
      else
        match Expect(rest, ',')
        case None => None
        case Some(more) =>
          match DecodeItems(more)
          case None => None
          case Some(ss) => Some([s] + ss)
  }

  function DecodeGrouped(text: string): Option<seq<Series>> {
    match Expect(text, '{')
    case None => None
    case Some(t) => DecodeItems(t)
  }

  /** What the platform reads in a sensor-data message: the gateway, and the readings of each sensor. */
  function Decode(m: Message): Option<(string, seq<Series>)> {
    var parts := Split(m.topic, '/');
    if |parts| == 4 && parts[..3] == ["v", "a", "g"] then
      match DecodeGrouped(m.payload)
      case None => None
      case Some(ss) => Some((parts[3], ss))
    else if |parts| == 6 && parts[..3] == ["v", "a", "g"] && parts[4] == "s" then
      match DecodeSeries(m.payload)
      case None => None
      case Some(rs) => Some((parts[3], [Series(parts[5], rs)]))
    else None
  }

  // ---------------------------------------------------------------- round trips

  lemma {:induction false} TimeRoundTrip(t: uint64)
    ensures DecodeTime(Decimal(Signed64(t))) == Some(t)
  {
    DecimalRoundTrip(Signed64(t));
  }

  lemma {:induction false} PairStep(r: Reading, fields: seq<string>, rs: seq<Reading>)
    requires Pairs(fields) == Some(rs)
    ensures Pairs([Decimal(Signed64(r.time)), r.value] + fields) == Some([r] + rs)
  {
    TimeRoundTrip(r.time);
    assert ([Decimal(Signed64(r.time)), r.value] + fields)[2..] == fields;
    hide Decimal, DecodeTime, Signed64;
  }

  lemma {:induction false} PairsRoundTrip(rs: seq<Reading>)
    ensures Pairs(Fields(rs)) == Some(rs)
  {
    if rs == [] {
    } else {
      assert Fields(rs) == [Decimal(Signed64(rs[0].time)), rs[0].value] + Fields(rs[1..]);
      hide *;
      PairsRoundTrip(rs[1..]);
      PairStep(rs[0], Fields(rs[1..]), rs[1..]);
      assert [rs[0]] + rs[1..] == rs;
    }
  }

  ghost predicate ValuesAvoid(rs: seq<Reading>, c: char) {
    forall r :: r in rs ==> c !in r.value
  }

  lemma {:induction false} FieldsAvoid(rs: seq<Reading>, c: char)
    requires ValuesAvoid(rs, c) && c != '-' && !('0' <= c <= '9')
    ensures forall f :: f in Fields(rs) ==> c !in f
  {
    if rs == [] {
    } else {
      DecimalChars(Signed64(rs[0].time));
      FieldsAvoid(rs[1..], c);
    }
  }

  lemma {:induction false} SeriesRoundTrip(rs: seq<Reading>)
    requires rs != [] && ValuesAvoid(rs, ',')
    ensures DecodeSeries(SeriesText(rs)) == Some(rs)
  {
    FieldsAvoid(rs, ',');
    SplitJoin(Fields(rs), ',');
    PairsRoundTrip(rs);
  }

  lemma {:induction false} UntilFirst(a: string, c: char, b: string)
    requires c !in a
    ensures Until(a + [c] + b, c) == Some((a, b))
  {
    IndexOfAfter(a, c, b);
    var t := a + [c] + b;
    assert t[..|a|] == a && t[|a| + 1..] == b;
  }

  ghost predicate Printable(s: Series) {
    && s.readings != [] && '"' !in s.id
    && ValuesAvoid(s.readings, ',') && ValuesAvoid(s.readings, ']')
  }

  lemma {:induction false} ExpectNext(c: char, t: string)
    ensures Expect([c] + t, c) == Some(t)
    ensures c != ' ' ==> Expect(" " + ([c] + t), c) == Some(t)
  {
    assert ([c] + t)[1..] == t;
    assert (" " + ([c] + t))[1..] == [c] + t;
  }

  lemma {:induction false} ItemRoundTrip(s: Series, rest: string)
    requires Printable(s)
    ensures DecodeItem(Item(s) + rest) == Some((s, rest))
  {
    var body := SeriesText(s.readings);
    var t4 := body + [']'] + rest;
    var t3 := " " + (['['] + t4);
    var t2 := [':'] + t3;
    var t1 := s.id + ['"'] + t2;
    ItemAssoc(s.id, body, rest);
    ExpectNext('"', t1);
    UntilFirst(s.id, '"', t2);
    ExpectNext(':', t3);
    ExpectNext('[', t4);
    FieldsAvoid(s.readings, ']');
    JoinKeepsOut(Fields(s.readings), ",", ']');
    UntilFirst(body, ']', rest);
    SeriesRoundTrip(s.readings);
  }

  lemma {:induction false} ItemAssoc(id: string, body: string, rest: string)
    ensures "\"" + id + "\": [" + body + "]" + rest ==
            ['"'] + (id + ['"'] + ([':'] + (" " + (['['] + (body + [']'] + rest)))))
  {
    var tail := body + [']'] + rest;
    assert "\": [" + tail == ['"'] + ([':'] + (" " + (['['] + tail)));
    assert "\"" + id + "\": [" + body + "]" + rest == ['"'] + (id + ("\": [" + tail));
    assert id + (['"'] + ([':'] + (" " + (['['] + tail)))) == id + ['"'] + ([':'] + (" " + (['['] + tail)));
  }

  ghost function ItemsText(ss: seq<Series>): string {
    Join(Items(ss), ", ") + "}"
  }

  lemma {:induction false} ItemsRoundTrip(ss: seq<Series>)
    requires ss != [] && forall i :: 0 <= i < |ss| ==> Printable(ss[i])
    ensures DecodeItems(ItemsText(ss)) == Some(ss)
  {
    hide *;
    if |ss| == 1 {
      LastItemRoundTrip(ss[0]);
      assert [ss[0]] == ss;
    } else {
      ItemsRoundTrip(ss[1..]);
      ItemsStep(ss);
      assert [ss[0]] + ss[1..] == ss;
    }
  }

  lemma {:induction false} ItemsStep(ss: seq<Series>)
    requires |ss| > 1 && Printable(ss[0]) && DecodeItems(ItemsText(ss[1..])) == Some(ss[1..])
    ensures DecodeItems(ItemsText(ss)) == Some([ss[0]] + ss[1..])
  {
    var s, more, rest := ss[0], ItemsText(ss[1..]), ss[1..];
    var t := Item(s) + ([','] + (" " + more));
    ItemRoundTrip(s, [','] + (" " + more));
    DecodeItemsStep(t, s, more, rest);
    ItemsTextCons(ss);
  }

  lemma {:induction false} LastItemRoundTrip(s: Series)
    requires Printable(s)
    ensures DecodeItems(ItemsText([s])) == Some([s])
  {
    ItemRoundTrip(s, "}");
    assert Items([s]) == [Item(s)];
  }

  lemma {:induction false} ItemsTextCons(ss: seq<Series>)
    requires |ss| > 1
    ensures ItemsText(ss) == Item(ss[0]) + ([','] + (" " + ItemsText(ss[1..])))
  {
    JoinCons(Item(ss[0]), Items(ss[1..]), ", ");
    CommaAssoc(Item(ss[0]), Join(Items(ss[1..]), ", "));
  }

  lemma {:induction false} CommaAssoc(item: string, rest: string)
    ensures item + ", " + rest + "}" == item + ([','] + (" " + (rest + "}")))
  {
    assert ", " == [','] + " ";
  }

  lemma {:induction false} DecodeItemsStep(t: string, s: Series, more: string, ss: seq<Series>)
    requires DecodeItem(t) == Some((s, [','] + (" " + more))) && DecodeItems(more) == Some(ss)
    ensures DecodeItems(t) == Some([s] + ss)
  {
    ExpectNext(',', " " + more);
    BlankBefore(more);
  }

  lemma {:induction false} BlankBefore(t: string)
    ensures DecodeItems(" " + t) == DecodeItems(t)
  {
    BlankBeforeItem(t);
    hide DecodeItem, Expect;
  }

  lemma {:induction false} BlankBeforeItem(t: string)
    ensures DecodeItem(" " + t) == DecodeItem(t)
  {
    assert (" " + t)[1..] == t;
    assert Expect(" " + t, '"') == Expect(t, '"');
    hide Expect, Until, DecodeSeries;
  }

  lemma {:induction false} GroupedRoundTrip(ss: seq<Series>)
    requires ss != [] && forall i :: 0 <= i < |ss| ==> Printable(ss[i])
    ensures DecodeGrouped(GroupedText(ss)) == Some(ss)
  {
    ItemsRoundTrip(ss);
    ExpectNext('{', ItemsText(ss));
    assert GroupedText(ss) == ['{'] + ItemsText(ss);
  }

  lemma {:induction false} SplitStep(part: string, rest: string)
    requires '/' !in part
    ensures Split(part + "/" + rest, '/') == [part] + Split(rest, '/')
  {
    SplitAtSeparator(part, rest, '/');
  }

  lemma {:induction false} PrefixText(rest: string)
    ensures "v/a/g/" + rest == "v" + "/" + ("a" + "/" + ("g" + "/" + rest))
  {
    assert "v" + "/" + ("a" + "/" + ("g" + "/")) == "v/a/g/";
    assert "g" + "/" + rest == "g/" + rest && "a" + "/" + ("g/" + rest) == "a/g/" + rest;
  }

  lemma {:induction false} TopicPrefix(rest: string)
    ensures Split("v/a/g/" + rest, '/') == ["v", "a", "g"] + Split(rest, '/')
  {
    PrefixText(rest);
    SplitStep("v", "a" + "/" + ("g" + "/" + rest));
    SplitStep("a", "g" + "/" + rest);
    SplitStep("g", rest);
  }

  lemma {:induction false} SensorParts(gw: string, id: string)
    requires '/' !in gw && '/' !in id
    ensures Split(gw + "/s/" + id, '/') == [gw, "s", id]
  {
    assert gw + "/s/" + id == gw + "/" + ("s" + "/" + id);
    SplitStep(gw, "s" + "/" + id);
    SplitStep("s", id);
    SplitAtSeparator(id, "", '/');
  }

  lemma {:induction false} TopicParts(gw: string, id: string)
    requires '/' !in gw && '/' !in id
    ensures Split(GatewayTopic(gw), '/') == ["v", "a", "g", gw]
    ensures Split(SensorTopic(gw, id), '/') == ["v", "a", "g", gw, "s", id]
  {
    SplitAtSeparator(gw, "", '/');
    TopicPrefix(gw);
    SensorParts(gw, id);
    TopicPrefix(gw + "/s/" + id);
    assert SensorTopic(gw, id) == "v/a/g/" + (gw + "/s/" + id);
  }

  // ---------------------------------------------------------------- the published message

  /** `_values_contain_single_sensor`: it compares pointers, not texts. */
  predicate SinglePointer(vs: seq<Value>)
    requires vs != []
  {
    |vs| == 1 || forall i :: 1 <= i < |vs| && vs[i].id != null ==> vs[i].id == vs[0].id
  }

  /** Entry by entry: every id is NULL or the first entry's pointer. */
  lemma {:induction false} OnePointer(vs: seq<Value>)
    requires vs != []
    ensures SinglePointer(vs) <==> forall i :: 0 <= i < |vs| ==> vs[i].id == null || vs[i].id == vs[0].id
  {
  }

  /** What `%s` prints for an id. */
  function IdText(id: CString?): string {
    if id == null then "(null)" else id.text
  }

  function ValueMessage(gw: string, vs: seq<Value>, clock: Clock, k: nat): Message
    requires vs != []
  {
    if SinglePointer(vs) then
      Message(SensorTopic(gw, IdText(vs[0].id)), SeriesText(Stamp(NonNull(vs), clock, k)))
    else
      Message(GatewayTopic(gw), GroupedText(StampGroups(GroupBy(vs), clock, k)))
  }

  /** The topic of a value publish: the sensor's when all ids are one pointer, the gateway's otherwise. */
  lemma {:induction false} ValueTopic(gw: string, vs: seq<Value>, clock: Clock, k: nat)
    requires exists i :: 0 <= i < |vs| && vs[i].id != null
    ensures ValueMessage(gw, vs, clock, k).topic ==
            if forall i :: 0 <= i < |vs| ==> vs[i].id == null || vs[i].id == vs[0].id
            then "v/a/g/" + gw + "/s/" + vs[0].id.text
            else "v/a/g/" + gw
  {
    OnePointer(vs);
    hide SeriesText, GroupedText, Stamp, StampGroups, GroupBy, NonNull;
  }

  predicate SomeId(vs: seq<Value>) {
    exists i :: 0 <= i < |vs| && vs[i].id != null
  }

  /** What the route that is taken can carry: neither route a slash in the gateway's id or a comma
      in a value; the single-sensor route no slash in the sensor's id; the grouped route no quote
      in an id and no closing bracket in a value. */
  ghost predicate Carried(gw: string, vs: seq<Value>)
    requires vs != []
  {
    && '/' !in gw && ValuesLack(vs, ',')
    && if SinglePointer(vs) then IdsLack(vs, '/') else IdsLack(vs, '"') && ValuesLack(vs, ']')
  }

  ghost predicate IdsLack(vs: seq<Value>, c: char) {
    forall v :: v in vs && v.id != null ==> c !in v.id.text
  }

  ghost predicate ValuesLack(vs: seq<Value>, c: char) {
    forall v :: v in vs && v.id != null ==> c !in v.value
  }

  lemma {:induction false} OnePointerOneGroup(vs: seq<Value>, id: CString)
    requires forall i :: 0 <= i < |vs| && vs[i].id != null ==> vs[i].id == id
    ensures Filter(vs, id.text) == NonNull(vs)
    ensures FirstIds(vs) == if NonNull(vs) == [] then [] else [id.text]
  {
    if vs == [] {
    } else {
      OnePointerOneGroup(vs[..|vs| - 1], id);
    }
  }

  lemma {:induction false} NonNullEmpty(vs: seq<Value>)
    ensures NonNull(vs) == [] <==> !SomeId(vs)
  {
    if vs == [] {
    } else {
      var init := vs[..|vs| - 1];
      NonNullEmpty(init);
      if SomeId(init) {
        var i :| 0 <= i < |init| && init[i].id != null;
        assert vs[i].id != null;
      }
    }
  }

  /** The single-sensor route is taken with some id only when there is exactly one group. */
  lemma {:induction false} SingleRoute(vs: seq<Value>, clock: Clock, k: nat)
    requires vs != [] && SinglePointer(vs) && SomeId(vs)
    ensures vs[0].id != null
    ensures StampGroups(GroupBy(vs), clock, k) == [Series(vs[0].id.text, Stamp(NonNull(vs), clock, k))]
  {
    var id := vs[0].id;
    OnePointerOneGroup(vs, id);
    NonNullEmpty(vs);
    assert GroupBy(vs) == [Group(id.text, NonNull(vs))];
    StampOneGroup(Group(id.text, NonNull(vs)), clock, k);
  }

  lemma {:induction false} StampOneGroup(g: Group, clock: Clock, k: nat)
    ensures StampGroups([g], clock, k) == [Series(g.id, Stamp(g.values, clock, k))]
  {
    assert [g][..0] == [];
  }

  lemma {:induction false} UnstampedUpdate(gs: seq<Group>, k: nat, v: Value)
    requires k < |gs|
    ensures UnstampedGroups(gs[k := Group(gs[k].id, gs[k].values + [v])]) ==
            UnstampedGroups(gs) + if v.time == 0 then 1 else 0
  {
    var n := |gs| - 1;
    var hs := gs[k := Group(gs[k].id, gs[k].values + [v])];
    assert (gs[k].values + [v])[..|gs[k].values|] == gs[k].values;
    if k < n {
      assert hs[..n] == gs[..n][k := Group(gs[k].id, gs[k].values + [v])];
      UnstampedUpdate(gs[..n], k, v);
    } else {
      assert hs[..n] == gs[..n];
    }
  }

  lemma {:induction false} UnstampedLast(gs: seq<Group>, id: string, v: Value)
    ensures UnstampedGroups(gs + [Group(id, [v])]) == UnstampedGroups(gs) + if v.time == 0 then 1 else 0
  {
    assert (gs + [Group(id, [v])])[..|gs|] == gs;
    assert [v][..0] == [] && Unstamped([v]) == if v.time == 0 then 1 else 0;
  }

  lemma {:induction false} UnstampedAdded(vs: seq<Value>, v: Value)
    requires v.id != null
    ensures UnstampedGroups(GroupBy(vs + [v])) == UnstampedGroups(GroupBy(vs)) + if v.time == 0 then 1 else 0
  {
    GroupByAppend(vs, v);
    hide *;
    if v.id.text in FirstIds(vs) {
      var k :| 0 <= k < |FirstIds(vs)| && FirstIds(vs)[k] == v.id.text;
      assert Has(v, FirstIds(vs)[k]) by {
        SameIdText(v);
      }
      GroupIdAt(vs, k);
      UnstampedUpdate(GroupBy(vs), k, v);
    } else {
      UnstampedLast(GroupBy(vs), v.id.text, v);
    }
  }

  lemma {:induction false} SameIdText(v: Value)
    requires v.id != null
    ensures Has(v, v.id.text)
  {
  }

  /** Grouping leaves as many entries without a time as there were. */
  lemma {:induction false} UnstampedGrouped(vs: seq<Value>)
    ensures UnstampedGroups(GroupBy(vs)) == Unstamped(NonNull(vs))
  {
    if vs == [] {
    } else {
      var init, v := vs[..|vs| - 1], vs[|vs| - 1];
      hide *;
      UnstampedGrouped(init);
      UnstampedNonNullLast(vs);
      assert init + [v] == vs;
      if v.id == null {
        GroupByAppend(init, v);
      } else {
        UnstampedAdded(init, v);
      }
    }
  }

  lemma {:induction false} GroupIdAt(vs: seq<Value>, k: nat)
    requires k < |FirstIds(vs)|
    ensures GroupBy(vs)[k].id == FirstIds(vs)[k]
  {
  }

  /** The entries with an id and without a time. */
  function Timeless(vs: seq<Value>): set<nat> {
    set i: nat | i < |vs| && vs[i].id != null && vs[i].time == 0
  }

  lemma {:induction false} TimelessLast(vs: seq<Value>)
    requires vs != []
    ensures var n := |vs| - 1;
            && n !in Timeless(vs[..n])
            && Timeless(vs) == Timeless(vs[..n]) + if vs[n].id != null && vs[n].time == 0 then {n} else {}
  {
  }

  lemma {:induction false} UnstampedNonNullLast(vs: seq<Value>)
    requires vs != []
    ensures var n := |vs| - 1;
            Unstamped(NonNull(vs)) ==
            Unstamped(NonNull(vs[..n])) + if vs[n].id != null && vs[n].time == 0 then 1 else 0
  {
    var n := |vs| - 1;
    assert vs[..n] + [vs[n]] == vs;
    hide *;
    NonNullAppend(vs[..n], vs[n]);
    StampAppend(NonNull(vs[..n]), vs[n], _ => 0, 0);
    assert NonNull(vs[..n]) + [] == NonNull(vs[..n]);
  }

  lemma {:induction false} UnstampedCount(vs: seq<Value>)
    ensures Unstamped(NonNull(vs)) == |Timeless(vs)|
  {
    if vs == [] {
    } else {
      hide *;
      UnstampedCount(vs[..|vs| - 1]);
      UnstampedNonNullLast(vs);
      TimelessLast(vs);
    }
  }

  lemma {:induction false} StampShape(vs: seq<Value>, clock: Clock, k: nat)
    ensures forall i :: 0 <= i < |vs| ==> StampOf(vs[i], Stamp(vs, clock, k)[i], clock, k, k + Unstamped(vs))
  {
    if vs == [] {
    } else {
      StampShape(vs[..|vs| - 1], clock, k);
    }
  }

  /** A reading carries its entry's value, and its entry's time unless that is zero; then it is
      one of the clock readings from `from` up to `to`. */
  ghost predicate StampOf(v: Value, r: Reading, clock: Clock, from: nat, to: nat) {
    && r.value == v.value
    && if v.time != 0 then r.time == v.time else exists j: nat :: from <= j < to && r.time == clock(j)
  }

  lemma {:induction false} FilterMembers(vs: seq<Value>, id: string)
    ensures forall i :: 0 <= i < |Filter(vs, id)| ==> Has(Filter(vs, id)[i], id) && Filter(vs, id)[i] in vs
  {
    if vs == [] {
    } else {
      FilterMembers(vs[..|vs| - 1], id);
    }
  }

  lemma {:induction false} StampGroupsAt(gs: seq<Group>, clock: Clock, k: nat, i: nat)
    requires i < |gs|
    ensures StampGroups(gs, clock, k)[i] ==
            Series(gs[i].id, Stamp(gs[i].values, clock, k + UnstampedGroups(gs[..i])))
  {
    if i == |gs| - 1 {
    } else {
      StampGroupsAt(gs[..|gs| - 1], clock, k, i);
      assert gs[..|gs| - 1][..i] == gs[..i];
    }
  }

  lemma {:induction false} UnstampedGroupsPrefix(gs: seq<Group>, n: nat)
    requires n <= |gs|
    ensures UnstampedGroups(gs[..n]) <= UnstampedGroups(gs)
  {
    if n == |gs| {
      assert gs[..n] == gs;
    } else {
      assert gs[..|gs| - 1][..n] == gs[..n];
      UnstampedGroupsPrefix(gs[..|gs| - 1], n);
    }
  }

  lemma {:induction false} UnstampedUpTo(gs: seq<Group>, i: nat)
    requires i < |gs|
    ensures UnstampedGroups(gs[..i]) + Unstamped(gs[i].values) <= UnstampedGroups(gs)
  {
    UnstampedGroupsPrefix(gs, i + 1);
    assert gs[..i + 1][..i] == gs[..i];
  }

  lemma {:induction false} StampedAt(vs: seq<Value>, clock: Clock, k: nat, i: nat)
    requires i < |FirstIds(vs)|
    ensures var id, from := FirstIds(vs)[i], k + UnstampedGroups(GroupBy(vs)[..i]);
            && StampGroups(GroupBy(vs), clock, k)[i] == Series(id, Stamp(Filter(vs, id), clock, from))
            && from + Unstamped(Filter(vs, id)) <= k + UnstampedGroups(GroupBy(vs))
  {
    StampGroupsAt(GroupBy(vs), clock, k, i);
    UnstampedUpTo(GroupBy(vs), i);
    hide StampGroups, UnstampedGroups, Stamp, Unstamped, Filter, FirstIds;
  }

  /** What the stamped groups say: every id once, in order of first occurrence, with the values of
      its own entries in input order, and their times; a zero time has become one of the clock
      readings taken during the call. */
  lemma {:induction false} StampedGroups(vs: seq<Value>, clock: Clock, k: nat, i: nat)
    requires i < |FirstIds(vs)|
    ensures var s, f := StampGroups(GroupBy(vs), clock, k)[i], Filter(vs, FirstIds(vs)[i]);
            && s.id == FirstIds(vs)[i] && |s.readings| == |f| > 0
            && forall j :: 0 <= j < |f| ==>
                 StampOf(f[j], s.readings[j], clock, k, k + UnstampedGroups(GroupBy(vs)))
  {
    var id, from := FirstIds(vs)[i], k + UnstampedGroups(GroupBy(vs)[..i]);
    var f, rs := Filter(vs, id), Stamp(Filter(vs, id), clock, from);
    StampedAt(vs, clock, k, i);
    FilterPresent(vs, id);
    StampShape(f, clock, from);
    hide StampGroups, GroupBy, UnstampedGroups, Stamp, Unstamped, Filter, FirstIds;
    forall j | 0 <= j < |f| ensures StampOf(f[j], rs[j], clock, k, k + UnstampedGroups(GroupBy(vs))) {
      assert StampOf(f[j], rs[j], clock, from, from + Unstamped(f));
    }
  }

  lemma {:induction false} FilterContains(vs: seq<Value>, v: Value, id: string)
    requires v in vs && Has(v, id)
    ensures v in Filter(vs, id)
  {
    if v == vs[|vs| - 1] {
    } else {
      FilterContains(vs[..|vs| - 1], v, id);
    }
  }

  /** Every entry with an id has its id and value in the stamped groups. */
  lemma {:induction false} StampedHolds(vs: seq<Value>, clock: Clock, k: nat, v: Value) returns (i: nat, j: nat)
    requires v in vs && v.id != null
    ensures var ss := StampGroups(GroupBy(vs), clock, k);
            i < |ss| && ss[i].id == v.id.text && j < |ss[i].readings| && ss[i].readings[j].value == v.value
  {
    var id := v.id.text;
    FirstIdsLaws(vs);
    i :| 0 <= i < |FirstIds(vs)| && FirstIds(vs)[i] == id;
    FilterContains(vs, v, id);
    j :| 0 <= j < |Filter(vs, id)| && Filter(vs, id)[j] == v;
    StampedGroups(vs, clock, k, i);
    assert StampOf(v, StampGroups(GroupBy(vs), clock, k)[i].readings[j], clock, k, k + UnstampedGroups(GroupBy(vs)));
  }

  ghost predicate SeriesIdsLack(ss: seq<Series>, c: char) {
    forall i :: 0 <= i < |ss| ==> c !in ss[i].id
  }

  ghost predicate SeriesValuesLack(ss: seq<Series>, c: char) {
    forall i :: 0 <= i < |ss| ==> ValuesAvoid(ss[i].readings, c)
  }

  /** The stamped groups hold the characters of the entries with an id, no more and no fewer. */
  lemma {:induction false} StampedLack(vs: seq<Value>, clock: Clock, k: nat, c: char)
    ensures var ss := StampGroups(GroupBy(vs), clock, k);
            (SeriesIdsLack(ss, c) <==> IdsLack(vs, c)) && (SeriesValuesLack(ss, c) <==> ValuesLack(vs, c))
  {
    var ss := StampGroups(GroupBy(vs), clock, k);
    forall i | 0 <= i < |ss|
      ensures (IdsLack(vs, c) ==> c !in ss[i].id) && (ValuesLack(vs, c) ==> ValuesAvoid(ss[i].readings, c))
    {
      var id := FirstIds(vs)[i];
      var f := Filter(vs, id);
      StampedGroups(vs, clock, k, i);
      FilterMembers(vs, id);
      assert Has(f[0], id) && f[0] in vs;
      forall r | r in ss[i].readings && ValuesLack(vs, c) ensures c !in r.value {
        var j :| 0 <= j < |ss[i].readings| && ss[i].readings[j] == r;
        assert Has(f[j], id) && f[j] in vs;
        assert StampOf(f[j], r, clock, k, k + UnstampedGroups(GroupBy(vs)));
      }
    }
    forall v | v in vs && v.id != null
      ensures (SeriesIdsLack(ss, c) ==> c !in v.id.text) && (SeriesValuesLack(ss, c) ==> c !in v.value)
    {
      var i, j := StampedHolds(vs, clock, k, v);
      assert ss[i].readings[j] in ss[i].readings;
    }
  }

  lemma {:induction false} StampedFilled(vs: seq<Value>, clock: Clock, k: nat)
    requires SomeId(vs)
    ensures var ss := StampGroups(GroupBy(vs), clock, k);
            ss != [] && forall i :: 0 <= i < |ss| ==> ss[i].readings != []
  {
    var i :| 0 <= i < |vs| && vs[i].id != null;
    FirstIdsLaws(vs);
    assert vs[i].id.text in FirstIds(vs);
    var ss := StampGroups(GroupBy(vs), clock, k);
    forall j | 0 <= j < |ss| ensures ss[j].readings != [] {
      StampedGroups(vs, clock, k, j);
    }
  }

  lemma {:induction false} SingleMeaning(gw: string, vs: seq<Value>, clock: Clock, k: nat)
    requires SomeId(vs) && SinglePointer(vs)
    ensures Decode(ValueMessage(gw, vs, clock, k)) == Some((gw, StampGroups(GroupBy(vs), clock, k))) <==>
            '/' !in gw && ValuesLack(vs, ',') && IdsLack(vs, '/')
  {
    hide Decode, StampGroups, GroupBy, IdsLack, ValuesLack, ValuesAvoid, SinglePointer, SomeId, Stamp, NonNull,
         SensorTopic;
    StampedFilled(vs, clock, k);
    var s := StampGroups(GroupBy(vs), clock, k)[0];
    SingleRoute(vs, clock, k);
    StampedLack(vs, clock, k, '/');
    StampedLack(vs, clock, k, ',');
    SingleMessageMeaning(gw, s);
  }

  lemma {:induction false} GroupedMeaning(gw: string, vs: seq<Value>, clock: Clock, k: nat)
    requires SomeId(vs) && !SinglePointer(vs)
    ensures Decode(ValueMessage(gw, vs, clock, k)) == Some((gw, StampGroups(GroupBy(vs), clock, k))) <==>
            '/' !in gw && ValuesLack(vs, ',') && IdsLack(vs, '"') && ValuesLack(vs, ']')
  {
    assert ValueMessage(gw, vs, clock, k) == Message(GatewayTopic(gw), GroupedText(StampGroups(GroupBy(vs), clock, k)));
    hide *;
    var ss := StampGroups(GroupBy(vs), clock, k);
    StampedFilled(vs, clock, k);
    StampedLack(vs, clock, k, ',');
    StampedLack(vs, clock, k, '"');
    StampedLack(vs, clock, k, ']');
    GroupedMessageMeaning(gw, ss);
  }

  /** Meaning preserved by value publishing: whichever route is taken, the platform reads back
      exactly the stamped stable group-by of the input, if and only if the route can carry it. */
  lemma {:induction false} ValueMeaning(gw: string, vs: seq<Value>, clock: Clock, k: nat)
    requires SomeId(vs)
    ensures Decode(ValueMessage(gw, vs, clock, k)) == Some((gw, StampGroups(GroupBy(vs), clock, k))) <==>
            Carried(gw, vs)
  {
    assert vs != [];
    hide Decode, ValueMessage, StampGroups, GroupBy, IdsLack, ValuesLack, SinglePointer, SomeId;
    if SinglePointer(vs) {
      SingleMeaning(gw, vs, clock, k);
    } else {
      GroupedMeaning(gw, vs, clock, k);
    }
  }

  lemma {:induction false} SensorTopicParts(gw: string, id: string)
    ensures Split(SensorTopic(gw, id), '/') == ["v", "a", "g"] + Split(gw, '/') + ["s"] + Split(id, '/')
  {
    hide *;
    TopicPrefix(gw + "/s/" + id);
    SensorTopicText(gw, id);
    SplitConcat(gw, "s" + ['/'] + id, '/');
    SplitConcat("s", id, '/');
    SplitSingle("s", '/');
  }

  lemma {:induction false} SensorTopicText(gw: string, id: string)
    ensures SensorTopic(gw, id) == "v/a/g/" + (gw + "/s/" + id)
    ensures gw + "/s/" + id == gw + ['/'] + ("s" + ['/'] + id)
  {
  }

  lemma {:induction false} PairsHold(fields: seq<string>)
    requires Pairs(fields).Some?
    ensures forall r :: r in Pairs(fields).value ==> r.value in fields
  {
    if fields == [] {
    } else {
      PairsHold(fields[2..]);
    }
  }

  /** A decoded value is a part of the text: it has no comma, and nothing the text lacks. */
  lemma {:induction false} SeriesDecoded(text: string, c: char)
    requires DecodeSeries(text).Some?
    ensures ValuesAvoid(DecodeSeries(text).value, ',')
    ensures c !in text ==> ValuesAvoid(DecodeSeries(text).value, c)
  {
    PairsHold(Split(text, ','));
    SplitParts(text, ',');
  }

  lemma {:induction false} ItemDecoded(t: string)
    requires DecodeItem(t).Some?
    ensures var s := DecodeItem(t).value.0;
            '"' !in s.id && ValuesAvoid(s.readings, ',') && ValuesAvoid(s.readings, ']')
  {
    var t1 := Expect(t, '"').value;
    var t4 := Expect(Expect(Until(t1, '"').value.1, ':').value, '[').value;
    SeriesDecoded(Until(t4, ']').value.0, ']');
  }

  lemma {:induction false} ItemsDecoded(t: string)
    requires DecodeItems(t).Some?
    ensures forall s :: s in DecodeItems(t).value ==>
              '"' !in s.id && ValuesAvoid(s.readings, ',') && ValuesAvoid(s.readings, ']')
    decreases |t|
  {
    ItemDecoded(t);
    var s, rest := DecodeItem(t).value.0, DecodeItem(t).value.1;
    if Expect(rest, '}') == Some("") {
      assert DecodeItems(t).value == [s];
    } else {
      var more := Expect(rest, ',').value;
      assert DecodeItems(t).value == [s] + DecodeItems(more).value;
      hide *;
      ItemsDecoded(more);
    }
  }

  lemma {:induction false} SingleMessageMeaning(gw: string, s: Series)
    requires s.readings != []
    ensures Decode(Message(SensorTopic(gw, s.id), SeriesText(s.readings))) == Some((gw, [s])) <==>
            '/' !in gw && '/' !in s.id && ValuesAvoid(s.readings, ',')
  {
    SensorTopicParts(gw, s.id);
    SplitSingle(gw, '/');
    SplitSingle(s.id, '/');
    SplitParts(SensorTopic(gw, s.id), '/');
    if '/' !in gw && '/' !in s.id && ValuesAvoid(s.readings, ',') {
      SeriesRoundTrip(s.readings);
    } else if DecodeSeries(SeriesText(s.readings)).Some? {
      SeriesDecoded(SeriesText(s.readings), ',');
    }
    hide Split, SeriesText, DecodeSeries, DecodeGrouped, SensorTopic, ValuesAvoid;
  }

  lemma {:induction false} GroupedMessageMeaning(gw: string, ss: seq<Series>)
    requires ss != [] && forall i :: 0 <= i < |ss| ==> ss[i].readings != []
    ensures Decode(Message(GatewayTopic(gw), GroupedText(ss))) == Some((gw, ss)) <==>
            '/' !in gw && SeriesIdsLack(ss, '"') && SeriesValuesLack(ss, ',') && SeriesValuesLack(ss, ']')
  {
    TopicPrefix(gw);
    SplitSingle(gw, '/');
    SplitParts(GatewayTopic(gw), '/');
    if '/' !in gw && SeriesIdsLack(ss, '"') && SeriesValuesLack(ss, ',') && SeriesValuesLack(ss, ']') {
      GroupedRoundTrip(ss);
    } else if DecodeGrouped(GroupedText(ss)).Some? {
      ItemsDecoded(Expect(GroupedText(ss), '{').value);
      assert forall i :: 0 <= i < |ss| ==> ss[i] in ss;
    }
    hide Split, GroupedText, DecodeItems, DecodeSeries, ValuesAvoid;
  }

  /** A comma in a value is enough: the platform does not read this reading back. */
  lemma {:induction false} CommaInValueFails(gw: string, id: CString, clock: Clock, k: nat)
    ensures var vs := [Value(id, "1,5", 7)];
            Decode(ValueMessage(gw, vs, clock, k)) != Some((gw, StampGroups(GroupBy(vs), clock, k)))
  {
    var vs := [Value(id, "1,5", 7)];
    assert vs[0].id != null && ',' in vs[0].value && vs[0] in vs;
    ValueMeaning(gw, vs, clock, k);
    hide Decode, ValueMessage, StampGroups, GroupBy;
  }

  /** The text of two readings; times from 2^63 on come out negative. */
  lemma {:induction false} TwoReadings(a: Reading, b: Reading)
    ensures SeriesText([a, b]) ==
            Decimal(Signed64(a.time)) + "," + (a.value + "," + (Decimal(Signed64(b.time)) + "," + b.value))
    ensures Decimal(Signed64(12)) == "12" && Decimal(Signed64(0xFFFF_FFFF_FFFF_FFFF)) == "-1"
  {
    var s, t := Decimal(Signed64(a.time)), Decimal(Signed64(b.time));
    assert [a, b][1..] == [b] && [b][1..] == [];
    assert Fields([b]) == [t, b.value] + Fields([]) && Fields([a, b]) == [s, a.value] + Fields([b]);
    assert Fields([a, b]) == [s] + ([a.value] + ([t] + [b.value]));
    hide Fields, Signed64;
    JoinCons(s, [a.value] + ([t] + [b.value]), ",");
    JoinCons(a.value, [t] + [b.value], ",");
    JoinCons(t, [b.value], ",");
  }

  /** The text of two sensors. */
  lemma {:induction false} TwoSensors(a: Series, b: Series)
    ensures GroupedText([a, b]) ==
            "{" + (("\"" + a.id + "\": [" + SeriesText(a.readings) + "]") + ", "
                   + ("\"" + b.id + "\": [" + SeriesText(b.readings) + "]")) + "}"
  {
    hide SeriesText;
    assert [a, b][1..] == [b] && [b][1..] == [];
    assert Items([b]) == [Item(b)] + Items([]) && Items([a, b]) == [Item(a)] + Items([b]);
    assert [Item(b)] + [] == [Item(b)];
    hide Items;
    JoinCons(Item(a), [Item(b)], ", ");
  }

  // ---------------------------------------------------------------- the shape of grouped payloads

  function Count(s: string, c: char): nat {
    if s == "" then 0 else (if s[0] == c then 1 else 0) + Count(s[1..], c)
  }

  lemma {:induction false} CountConcat(a: string, b: string, c: char)
    ensures Count(a + b, c) == Count(a, c) + Count(b, c)
  {
    if a == "" {
      assert a + b == b;
    } else {
      CountConcat(a[1..], b, c);
      assert (a + b)[1..] == a[1..] + b;
    }
  }

  lemma {:induction false} CountAbsent(s: string, c: char)
    requires c !in s
    ensures Count(s, c) == 0
  {
    if s == "" {
    } else {
      CountAbsent(s[1..], c);
    }
  }

  /** The text's own brackets and braces. */
  ghost predicate Bracket(c: char) {
    c in "[]{}"
  }

  lemma {:induction false} CountItem(s: Series, c: char)
    requires Bracket(c) && c !in s.id && ValuesAvoid(s.readings, c)
    ensures Count(Item(s), c) == if c == '[' || c == ']' then 1 else 0
  {
    var body := SeriesText(s.readings);
    FieldsAvoid(s.readings, c);
    JoinKeepsOut(Fields(s.readings), ",", c);
    CountAbsent(body, c);
    CountAbsent(s.id, c);
    CountFrame(c);
    CountConcat("\"" + s.id + "\": [" + body, "]", c);
    CountConcat("\"" + s.id + "\": [", body, c);
    CountConcat("\"" + s.id, "\": [", c);
    CountConcat("\"", s.id, c);
    hide Count, SeriesText;
  }

  lemma {:induction false} CountFrame(c: char)
    requires Bracket(c)
    ensures Count("\"", c) == 0 && Count(", ", c) == 0
    ensures Count("\": [", c) == (if c == '[' then 1 else 0) && Count("]", c) == (if c == ']' then 1 else 0)
    ensures Count("{", c) == (if c == '{' then 1 else 0) && Count("}", c) == (if c == '}' then 1 else 0)
  {
    CountConcat("\": ", "[", c);
    assert "\": [" == "\": " + "[";
    CountAbsent("\": ", c);
    CountAbsent(", ", c);
    CountAbsent("\"", c);
  }

  lemma {:induction false} CountItems(ss: seq<Series>, c: char)
    requires Bracket(c) && SeriesIdsLack(ss, c) && SeriesValuesLack(ss, c)
    ensures Count(Join(Items(ss), ", "), c) == if c == '[' || c == ']' then |ss| else 0
  {
    if ss == [] {
    } else {
      var first, rest := Item(ss[0]), Join(Items(ss[1..]), ", ");
      CountItem(ss[0], c);
      CountItems(ss[1..], c);
      CountFrame(c);
      if |ss| > 1 {
        JoinCons(first, Items(ss[1..]), ", ");
        CountConcat(first + ", ", rest, c);
        CountConcat(first, ", ", c);
      }
      hide Count, Item;
    }
  }

  /** A grouped payload opens with a brace and a quote, and its own brackets balance: one pair of
      braces, and one pair of brackets for each sensor. */
  lemma {:induction false} GroupedShape(ss: seq<Series>)
    requires ss != []
    ensures |GroupedText(ss)| > 2 && GroupedText(ss)[..2] == "{\"" && GroupedText(ss)[|GroupedText(ss)| - 1] == '}'
    ensures forall c :: Bracket(c) && SeriesIdsLack(ss, c) && SeriesValuesLack(ss, c) ==>
              Count(GroupedText(ss), c) == if c == '[' || c == ']' then |ss| else 1
  {
    var items := Join(Items(ss), ", ");
    ItemsOpen(ss);
    forall c | Bracket(c) && SeriesIdsLack(ss, c) && SeriesValuesLack(ss, c)
      ensures Count(GroupedText(ss), c) == if c == '[' || c == ']' then |ss| else 1
    {
      CountItems(ss, c);
      CountFrame(c);
      CountConcat("{" + items, "}", c);
      CountConcat("{", items, c);
      hide Count, Items, Join;
    }
    hide Join, Items;
  }

  lemma {:induction false} ItemsOpen(ss: seq<Series>)
    requires ss != []
    ensures var items := Join(Items(ss), ", "); |items| > 1 && items[0] == '"'
  {
    assert Item(ss[0])[0] == '"';
    if |ss| > 1 {
      JoinCons(Item(ss[0]), Items(ss[1..]), ", ");
    }
    hide Join;
  }
}
