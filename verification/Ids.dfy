/** The ids `rest.c` builds from templates for devices and sensors. */
module Ids {
  import opened Text

  const ID_LENGTH: nat := 128
  const GATEWAY_AND_ADDRESS := "{gatewayId}-{deviceAddress}"
  const GATEWAY_ONLY := "{gatewayId}"
  const TYPE_GATEWAY_SEQUENCE := "{type}-{gatewayId}-{sequence}"

  /** Length of `{gatewayId}-`, which the code skips without looking. */
  const SKIPPED: nat := 12

  /** `int` to `unsigned int`, as the caller of `_device_id_set` converts it. */
  function Unsigned32(n: int32): nat {
    n % 0x1_0000_0000
  }

  /** What `%d` makes of an `unsigned int`. */
  function Signed32(n: nat): int32
    requires n < 0x1_0000_0000
  {
    if n < 0x8000_0000 then n else n - 0x1_0000_0000
  }

  /** `_device_id_set` for a template that is present. `past` is what a template shorter than
      the skipped prefix is taken to continue with. */
  function DeviceId(template: string, gw: string, uid: int32, past: string): string {
    if EqualFold(template, GATEWAY_AND_ADDRESS) then gw + "-" + Decimal(Signed32(Unsigned32(uid)))
    else if EqualFold(template, GATEWAY_ONLY) then gw
    else gw + "-" + if |template| >= SKIPPED then template[SKIPPED..] else past
  }

  /** `_sensor_id_set`. */
  function SensorId(template: Option<string>, kind: string, gw: string, device: string, uid: int32): string {
    if template.None? then device + "-" + kind + "-" + Decimal(uid)
    else if EqualFold(template.value, TYPE_GATEWAY_SEQUENCE) then kind + "-" + gw + "-" + Decimal(uid)
    else if EqualFold(template.value, GATEWAY_ONLY) then gw
    else device + "-" + kind + "-" + Decimal(uid)
  }

  // ---------------------------------------------------------------- device ids

  lemma {:induction false} Signed32OfUnsigned32(n: int32)
    ensures Signed32(Unsigned32(n)) == n
  {
  }

  lemma {:induction false} AddressId(template: string, gw: string, uid: int32, past: string)
    requires EqualFold(template, GATEWAY_AND_ADDRESS)
    ensures DeviceId(template, gw, uid, past) == gw + "-" + Decimal(uid)
  {
    Signed32OfUnsigned32(uid);
  }

  /** The gateway's own template gives its id; any other that is long enough a fixed one, whatever
      stands where `{gatewayId}-` is expected. */
  lemma {:induction false} FixedDeviceId(gw: string, prefix: string, rest: string, uid: int32, past: string)
    requires |prefix| == |"{gatewayId}-"| && !EqualFold(prefix + rest, GATEWAY_AND_ADDRESS)
    ensures DeviceId(prefix + rest, gw, uid, past) == gw + "-" + rest
    ensures DeviceId(GATEWAY_ONLY, gw, uid, past) == gw
  {
    var template := prefix + rest;
    assert |Fold(template)| > |Fold(GATEWAY_ONLY)| && template[SKIPPED..] == rest;
    assert |Fold(GATEWAY_ONLY)| != |Fold(GATEWAY_AND_ADDRESS)|;
    hide Fold, Decimal;
  }

  /** Different addresses never collide, not even under `strcasecmp`. */
  lemma {:induction false} DeviceIdInjective(template: string, gw: string, u: int32, v: int32, past: string)
    requires EqualFold(template, GATEWAY_AND_ADDRESS)
    requires EqualFold(DeviceId(template, gw, u, past), DeviceId(template, gw, v, past))
    ensures u == v
  {
    AddressId(template, gw, u, past);
    AddressId(template, gw, v, past);
    FoldConcat(gw + "-", Decimal(u));
    FoldConcat(gw + "-", Decimal(v));
    FoldDecimal(u);
    FoldDecimal(v);
    var head := Fold(gw + "-");
    assert (head + Decimal(u))[|head|..] == Decimal(u) && (head + Decimal(v))[|head|..] == Decimal(v);
    DecimalRoundTrip(u);
    DecimalRoundTrip(v);
  }

  /** Only that template tells addresses apart; any other gives a gateway one device id in all. */
  lemma {:induction false} AddressesDistinguished(template: string, gw: string, past: string)
    ensures EqualFold(template, GATEWAY_AND_ADDRESS) <==>
            forall u: int32, v: int32 ::
              EqualFold(DeviceId(template, gw, u, past), DeviceId(template, gw, v, past)) ==> u == v
  {
    if EqualFold(template, GATEWAY_AND_ADDRESS) {
      forall u: int32, v: int32 | EqualFold(DeviceId(template, gw, u, past), DeviceId(template, gw, v, past))
        ensures u == v
      {
        DeviceIdInjective(template, gw, u, v, past);
      }
    } else {
      assert DeviceId(template, gw, 0, past) == DeviceId(template, gw, 1, past);
    }
  }

  lemma {:induction false} Int32Length(n: int32)
    ensures |Decimal(n)| <= 11
    ensures n == -0x8000_0000 ==> |Decimal(n)| == 11
  {
    assert Pow10(5) == 100_000;
    assert Pow10(10) == 100_000 * Pow10(5);
    var m: int := n;
    DigitsLength(if m < 0 then -m else m, 10);
    if n == -0x8000_0000 {
      DigitsAtLeast(2147483648, 10);
    }
  }

  lemma {:induction false} DigitsAtLeast(n: nat, k: nat)
    requires k > 0 && n >= Pow10(k - 1)
    ensures |Digits(n)| >= k
  {
    if k == 1 {
    } else {
      DigitsAtLeast(n / 10, k - 1);
    }
  }

  /** The id fits its 128-byte field for every address exactly when the gateway id has at most
      115 bytes. */
  lemma {:induction false} DeviceIdFits(template: string, gw: string, past: string)
    requires EqualFold(template, GATEWAY_AND_ADDRESS)
    ensures |gw| <= 115 <==> forall uid: int32 :: |DeviceId(template, gw, uid, past)| < ID_LENGTH
  {
    forall uid: int32 ensures |gw| <= 115 ==> |DeviceId(template, gw, uid, past)| < ID_LENGTH {
      AddressId(template, gw, uid, past);
      Int32Length(uid);
    }
    var least: int32 := -0x8000_0000;
    AddressId(template, gw, least, past);
    Int32Length(least);
    assert |DeviceId(template, gw, least, past)| == |gw| + 12;
  }

  /** One input on either side of both conditions: a template without the address gives two
      addresses one id, and a gateway id of 116 bytes is too long for the least address. */
  lemma {:induction false} DeviceIdExamples(gw: string)
    ensures DeviceId("{gatewayId}-lamp", gw, 1, "") == DeviceId("{gatewayId}-lamp", gw, 2, "")
    ensures |gw| == 116 ==> |DeviceId(GATEWAY_AND_ADDRESS, gw, -0x8000_0000, "")| == ID_LENGTH
  {
    assert |Fold("{gatewayId}-lamp")| != |Fold(GATEWAY_AND_ADDRESS)|;
    AddressId(GATEWAY_AND_ADDRESS, gw, -0x8000_0000, "");
    Int32Length(-0x8000_0000);
    hide Decimal;
  }

  // ---------------------------------------------------------------- sensor ids

  /** The template names neither of the two forms the code knows, or there is none. */
  predicate DefaultForm(template: Option<string>) {
    !SequenceForm(template) && !GatewayForm(template)
  }

  predicate SequenceForm(template: Option<string>) {
    template.Some? && EqualFold(template.value, TYPE_GATEWAY_SEQUENCE)
  }

  predicate GatewayForm(template: Option<string>) {
    template.Some? && EqualFold(template.value, GATEWAY_ONLY)
  }

  lemma {:induction false} OneForm(template: Option<string>)
    ensures !(SequenceForm(template) && GatewayForm(template))
  {
    assert |Fold(TYPE_GATEWAY_SEQUENCE)| != |Fold(GATEWAY_ONLY)|;
  }

  /** The sign of a negative uid is one more dash. */
  function Signed(text: string, uid: int32): string {
    if uid < 0 then text + "-" else text
  }

  function Size(n: int): nat {
    if n < 0 then -n else n
  }

  /** What stands before the last dash of an id that has a uid. */
  function Stem(template: Option<string>, kind: string, gw: string, device: string, uid: int32): string {
    if SequenceForm(template) then kind + "-" + Signed(gw, uid) else device + "-" + Signed(kind, uid)
  }

  lemma {:induction false} NumberedText(a: string, b: string, uid: int32)
    ensures a + "-" + b + "-" + Decimal(uid) == (a + "-" + Signed(b, uid)) + ['-'] + Digits(Size(uid))
  {
    var head, digits := a + "-" + b, Digits(Size(uid));
    assert a + "-" + (b + "-") == head + "-";
    assert head + "-" + ("-" + digits) == (head + "-") + ['-'] + digits;
    hide Digits;
  }

  lemma {:induction false} SensorIdText(template: Option<string>, kind: string, gw: string, device: string, uid: int32)
    ensures SensorId(template, kind, gw, device, uid) ==
            if GatewayForm(template) then gw
            else Stem(template, kind, gw, device, uid) + ['-'] + Digits(Size(uid))
  {
    OneForm(template);
    NumberedText(device, kind, uid);
    NumberedText(kind, gw, uid);
    hide EqualFold, Digits, Decimal, Signed;
  }

  /** Reads type and uid off a sensor id of a known device. */
  function ReadSensorId(device: string, id: string): Option<(string, int)> {
    if !(device + "-" <= id) then None
    else
      match SplitLast(id[|device| + 1..], '-')
      case None => None
      case Some((kind, digits)) =>
        match ParseDecimal(digits)
        case None => None
        case Some(uid) => Some((kind, uid))
  }

  /** Reads device, type and uid off a sensor id. */
  function ReadFullSensorId(id: string): Option<(string, string, int)> {
    match SplitLast(id, '-')
    case None => None
    case Some((head, digits)) =>
      match SplitLast(head, '-')
      case None => None
      case Some((device, kind)) =>
        match ParseDecimal(digits)
        case None => None
        case Some(uid) => Some((device, kind, uid))
  }

  lemma {:induction false} DigitsRead(n: nat)
    ensures ParseDecimal(Digits(n)) == Some(n) && '-' !in Digits(n)
  {
    DecimalRoundTrip(n);
    FoldDigits(n);
  }

  lemma {:induction false} ReadNumbered(device: string, text: string, n: nat)
    ensures ReadSensorId(device, (device + "-" + text) + ['-'] + Digits(n)) == Some((text, n))
  {
    var tail := text + ['-'] + Digits(n);
    DigitsRead(n);
    hide Digits, ParseDecimal, SplitLast;
    SplitLastRoundTrip(text, '-', Digits(n));
    assert (device + "-" + text) + ['-'] + Digits(n) == (device + "-") + tail;
    assert ((device + "-") + tail)[|device| + 1..] == tail;
  }

  /** For a known device, type and uid can be read off the posted id exactly when the uid is not
      negative, whatever the type. */
  lemma {:induction false} SensorIdRoundTrip(template: Option<string>, kind: string, gw: string, device: string,
                                             uid: int32)
    requires DefaultForm(template)
    ensures ReadSensorId(device, SensorId(template, kind, gw, device, uid)) == Some((kind, uid)) <==> uid >= 0
  {
    SensorIdText(template, kind, gw, device, uid);
    ReadNumbered(device, Signed(kind, uid), Size(uid));
    hide ReadSensorId, SensorId, Digits, Fold;
  }

  lemma {:induction false} SplitLastRest(s: string, c: char)
    ensures SplitLast(s, c).Some? ==> c !in SplitLast(s, c).value.1
  {
    if s == "" || s[|s| - 1] == c {
    } else {
      SplitLastRest(s[..|s| - 1], c);
    }
  }

  /** The device can be read off as well exactly when, besides, the type has no dash. */
  lemma {:induction false} FullSensorIdRoundTrip(template: Option<string>, kind: string, gw: string, device: string,
                                                 uid: int32)
    requires DefaultForm(template)
    ensures ReadFullSensorId(SensorId(template, kind, gw, device, uid)) == Some((device, kind, uid)) <==>
            uid >= 0 && '-' !in kind
  {
    var stem, digits := Stem(template, kind, gw, device, uid), Digits(Size(uid));
    SensorIdText(template, kind, gw, device, uid);
    DigitsRead(Size(uid));
    SplitLastRoundTrip(stem, '-', digits);
    SplitLastRest(stem, '-');
    hide Digits, ParseDecimal, SensorId, SplitLast;
    if uid >= 0 && '-' !in kind {
      SplitLastRoundTrip(device, '-', kind);
      assert stem == device + ['-'] + kind;
    }
  }

  /** The code takes two ids with a uid for the same exactly when they agree, up to case, before
      the last dash, and in the size of the uid. */
  lemma {:induction false} SensorIdsEqual(gw: string, template: Option<string>, kind: string, device: string,
                                          uid: int32, template': Option<string>, kind': string, device': string,
                                          uid': int32)
    requires !GatewayForm(template) && !GatewayForm(template')
    ensures EqualFold(SensorId(template, kind, gw, device, uid), SensorId(template', kind', gw, device', uid')) <==>
            && EqualFold(Stem(template, kind, gw, device, uid), Stem(template', kind', gw, device', uid'))
            && (uid == uid' || uid + uid' == 0)
  {
    var n, n' := Size(uid), Size(uid');
    assert n == n' <==> uid == uid' || uid + uid' == 0;
    SensorIdText(template, kind, gw, device, uid);
    SensorIdText(template', kind', gw, device', uid');
    hide *;
    FoldNumbered(Stem(template, kind, gw, device, uid), n, Stem(template', kind', gw, device', uid'), n');
  }

  lemma {:induction false} SignedEqual(kind: string, uid: int32, kind': string, uid': int32)
    requires uid == uid' || uid + uid' == 0
    ensures EqualFold(Signed(kind, uid), Signed(kind', uid')) <==>
            if uid == uid' then EqualFold(kind, kind')
            else if uid < 0 then EqualFold(kind', kind + "-")
            else EqualFold(kind, kind' + "-")
  {
    FoldCommon("", kind, kind', "-");
    hide Fold;
  }

  /** For a fixed device the code takes two ids for the same exactly when type and uid are, or when
      one uid is the other's negative and its type lacks the final dash of the other's. */
  lemma {:induction false} SensorIdsCollide(gw: string, device: string, template: Option<string>, kind: string,
                                            uid: int32, template': Option<string>, kind': string, uid': int32)
    requires DefaultForm(template) && DefaultForm(template')
    ensures EqualFold(SensorId(template, kind, gw, device, uid), SensorId(template', kind', gw, device, uid')) <==>
            || (EqualFold(kind, kind') && uid == uid')
            || (uid < 0 && uid + uid' == 0 && EqualFold(kind', kind + "-"))
            || (uid' < 0 && uid + uid' == 0 && EqualFold(kind, kind' + "-"))
  {
    SensorIdsEqual(gw, template, kind, device, uid, template', kind', device, uid');
    FoldCommon(device + "-", Signed(kind, uid), Signed(kind', uid'), "");
    if uid == uid' || uid + uid' == 0 {
      SignedEqual(kind, uid, kind', uid');
    }
    hide SensorId, EqualFold, Signed;
  }

  /** Texts equal up to case end in a dash together. */
  lemma {:induction false} FoldEndsInDash(a: string, b: string)
    requires EqualFold(a, b + "-")
    ensures a != "" && a[|a| - 1] == '-'
  {
    assert Fold(a)[|a| - 1] == Fold(b + "-")[|b|];
  }

  /** Which registrations share their id with another one of the same device: those with a negative
      uid other than the least, and those with a positive uid whose type ends in a dash. */
  lemma {:induction false} SensorIdShared(gw: string, device: string, template: Option<string>, kind: string,
                                          uid: int32)
    requires DefaultForm(template)
    ensures (exists kind': string, uid': int32 ::
               && !(EqualFold(kind, kind') && uid == uid')
               && EqualFold(SensorId(template, kind, gw, device, uid), SensorId(template, kind', gw, device, uid')))
            <==> -0x8000_0000 < uid < 0 || (uid > 0 && kind != "" && kind[|kind| - 1] == '-')
  {
    hide SensorId, Fold;
    forall kind': string, uid': int32
      | !(EqualFold(kind, kind') && uid == uid') &&
        EqualFold(SensorId(template, kind, gw, device, uid), SensorId(template, kind', gw, device, uid'))
      ensures -0x8000_0000 < uid < 0 || (uid > 0 && kind != "" && kind[|kind| - 1] == '-')
    {
      SensorIdsCollide(gw, device, template, kind, uid, template, kind', uid');
      if uid' < 0 {
        FoldEndsInDash(kind, kind');
      }
    }
    if -0x8000_0000 < uid < 0 {
      var other: int32 := -uid;
      SensorIdsCollide(gw, device, template, kind, uid, template, kind + "-", other);
    } else if uid > 0 && kind != "" && kind[|kind| - 1] == '-' {
      var other: int32, shorter := -uid, kind[..|kind| - 1];
      assert kind == shorter + "-";
      SensorIdsCollide(gw, device, template, kind, uid, template, shorter, other);
    }
  }

  /** Types that differ, and uids that differ, and one id: the sign and the case hide both. */
  lemma {:induction false} SharedSensorId(gw: string, device: string)
    ensures !EqualFold("K", "k-") && EqualFold(SensorId(None, "K", gw, device, -5), SensorId(None, "k-", gw, device, 5))
  {
    SensorIdsCollide(gw, device, None, "K", -5, None, "k-", 5);
    FoldCommon("", "K", "k", "-");
    assert Fold("K") == ['k'] == Fold("k");
    assert |Fold("K")| != |Fold("k-")|;
    hide SensorId, Fold;
  }

  /** The least uid is nobody's negative, so it shares its id with no other. */
  lemma {:induction false} LeastUidAlone(gw: string, device: string, kind: string, kind': string, uid: int32)
    requires EqualFold(SensorId(None, kind, gw, device, -0x8000_0000), SensorId(None, kind', gw, device, uid))
    ensures EqualFold(kind, kind') && uid == -0x8000_0000
  {
    SensorIdsCollide(gw, device, None, kind, -0x8000_0000, None, kind', uid);
    hide SensorId, Fold;
  }

  /** A dash in the type may as well belong to the device. */
  lemma {:induction false} DashedTypeCollides(template: Option<string>, gw: string, device: string, a: string,
                                              b: string, uid: int32)
    requires DefaultForm(template)
    ensures SensorId(template, a + "-" + b, gw, device, uid) == SensorId(template, b, gw, device + "-" + a, uid)
  {
    hide Decimal, Fold;
  }

  /** Which templates tell devices apart, and which tell uids apart: only the default form keeps the
      device, and only the gateway's own id drops the uid. */
  lemma {:induction false} SensorTemplates(template: Option<string>, gw: string)
    ensures DefaultForm(template) <==>
            forall kind: string, d: string, d': string, uid: int32 ::
              EqualFold(SensorId(template, kind, gw, d, uid), SensorId(template, kind, gw, d', uid)) ==>
                EqualFold(d, d')
    ensures !GatewayForm(template) <==>
            forall kind: string, d: string, u: int32, v: int32 ::
              EqualFold(SensorId(template, kind, gw, d, u), SensorId(template, kind, gw, d, v)) ==> u == v
  {
    OneForm(template);
    if DefaultForm(template) {
      forall kind: string, d: string, d': string, uid: int32
        | EqualFold(SensorId(template, kind, gw, d, uid), SensorId(template, kind, gw, d', uid))
        ensures EqualFold(d, d')
      {
        KeepsDevice(template, kind, gw, d, d', uid);
      }
    } else {
      DropsDevice(template, gw);
    }
    if GatewayForm(template) {
      SensorIdText(template, "k", gw, "d", 0);
      SensorIdText(template, "k", gw, "d", 1);
      assert EqualFold(SensorId(template, "k", gw, "d", 0), SensorId(template, "k", gw, "d", 1));
    } else {
      forall kind: string, d: string, u: int32, v: int32
        | EqualFold(SensorId(template, kind, gw, d, u), SensorId(template, kind, gw, d, v))
        ensures u == v
      {
        KeepsUid(template, kind, gw, d, u, v);
      }
    }
    hide SensorId, EqualFold;
  }

  lemma {:induction false} DefaultStem(template: Option<string>, kind: string, gw: string, device: string, uid: int32)
    requires DefaultForm(template)
    ensures !GatewayForm(template) && Stem(template, kind, gw, device, uid) == device + ("-" + Signed(kind, uid))
  {
    assert device + "-" + Signed(kind, uid) == device + ("-" + Signed(kind, uid));
    hide SequenceForm, GatewayForm, Signed;
  }

  lemma {:induction false} KeepsDevice(template: Option<string>, kind: string, gw: string, d: string, d': string,
                                       uid: int32)
    requires DefaultForm(template)
    requires EqualFold(SensorId(template, kind, gw, d, uid), SensorId(template, kind, gw, d', uid))
    ensures EqualFold(d, d')
  {
    hide *;
    DefaultStem(template, kind, gw, d, uid);
    DefaultStem(template, kind, gw, d', uid);
    SensorIdsEqual(gw, template, kind, d, uid, template, kind, d', uid);
    FoldCommon("", d, d', "-" + Signed(kind, uid));
  }

  lemma {:induction false} DropsDevice(template: Option<string>, gw: string)
    requires !DefaultForm(template)
    ensures SensorId(template, "k", gw, "a", 0) == SensorId(template, "k", gw, "b", 0) && !EqualFold("a", "b")
  {
    OneForm(template);
    SensorIdText(template, "k", gw, "a", 0);
    SensorIdText(template, "k", gw, "b", 0);
    assert Fold("a")[0] == 'a' && Fold("b")[0] == 'b';
    hide SensorId;
  }

  lemma {:induction false} KeepsUid(template: Option<string>, kind: string, gw: string, d: string, u: int32, v: int32)
    requires !GatewayForm(template)
    requires EqualFold(SensorId(template, kind, gw, d, u), SensorId(template, kind, gw, d, v))
    ensures u == v
  {
    SensorIdsEqual(gw, template, kind, d, u, template, kind, d, v);
    hide SensorId;
    assert |Stem(template, kind, gw, d, u)| == |Fold(Stem(template, kind, gw, d, u))|;
    assert |Stem(template, kind, gw, d, v)| == |Fold(Stem(template, kind, gw, d, v))|;
  }

  /** The id fits its 128-byte field for every uid exactly when what stands before the uid leaves
      room for a dash, a sign and ten digits. */
  lemma {:induction false} SensorIdFits(template: Option<string>, kind: string, gw: string, device: string)
    ensures (forall uid: int32 :: |SensorId(template, kind, gw, device, uid)| < ID_LENGTH) <==>
            if GatewayForm(template) then |gw| <= 127
            else if SequenceForm(template) then |kind| + |gw| <= 114
            else |device| + |kind| <= 114
  {
    OneForm(template);
    forall uid: int32
      ensures |SensorId(template, kind, gw, device, uid)| ==
              if GatewayForm(template) then |gw|
              else if SequenceForm(template) then |kind| + |gw| + 2 + |Decimal(uid)|
              else |device| + |kind| + 2 + |Decimal(uid)|
      ensures |Decimal(uid)| <= 11
    {
      Int32Length(uid);
      hide Decimal, Fold;
    }
    var least: int32 := -0x8000_0000;
    Int32Length(least);
    hide SensorId, Decimal, Fold;
    assert |SensorId(template, kind, gw, device, least)| >= 0;
  }
}
