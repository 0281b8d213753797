/**
 * The serialisation shapes the tracker exposes. `CustomEncoder.default`
 * turns each entity into a dictionary with fixed keys, and lists keep
 * index order. The text `json.dumps` prints is not modelled; a structured
 * read yields a `Json` tree instead. Each encoder is paired with a decoder,
 * and round-trip lemmas show that no information is lost.
 *
 * Scalar reads hand back `str(value)`: `Str` is Python's decimal rendering
 * of an integer, and `ParseInt` reads it back.
 */
module Encoding {
  import opened Wrappers
  import opened Model

  /** A JSON value: a number, a list, or an object whose keys keep insertion order. */
  datatype Json = Number(n: int) | List(items: seq<Json>) | Object(fields: seq<(string, Json)>)

  /** The value stored under `key` (the first occurrence), if any. */
  function Lookup(fields: seq<(string, Json)>, key: string): (r: Option<Json>)
    ensures r.Some? <==> exists i :: 0 <= i < |fields| && fields[i].0 == key
  {
    if fields == [] then None
    else if fields[0].0 == key then Some(fields[0].1)
    else Lookup(fields[1..], key)
  }

  /** The first entry with a given key decides what `Lookup` finds. */
  lemma {:induction false} LookupAt(fields: seq<(string, Json)>, i: nat, key: string)
    requires i < |fields| && fields[i].0 == key
    requires forall k :: 0 <= k < i ==> fields[k].0 != key
    ensures Lookup(fields, key) == Some(fields[i].1)
  {
    if i > 0 {
      LookupAt(fields[1..], i - 1, key);
    }
  }

  function IntField(j: Json, key: string): Option<int> {
    if !j.Object? then None
    else match Lookup(j.fields, key)
      case Some(Number(n)) => Some(n)
      case _ => None
  }

  function ListField(j: Json, key: string): Option<seq<Json>> {
    if !j.Object? then None
    else match Lookup(j.fields, key)
      case Some(List(items)) => Some(items)
      case _ => None
  }

  // ---- Part ----

  /** `{"current_hp": …, "max_hp": …, "times_broken": …}` */
  function EncodePart(x: Part): (j: Json)
    ensures j.Object? && |j.fields| == 3
    ensures IntField(j, "current_hp") == Some(x.current_hp)
    ensures IntField(j, "max_hp") == Some(x.max_hp)
    ensures IntField(j, "times_broken") == Some(x.times_broken)
  {
    var j := Object([("current_hp", Number(x.current_hp)),
                     ("max_hp", Number(x.max_hp)),
                     ("times_broken", Number(x.times_broken))]);
    assert "current_hp" != "max_hp" && "current_hp" != "times_broken" && "max_hp" != "times_broken";
    LookupAt(j.fields, 0, "current_hp");
    LookupAt(j.fields, 1, "max_hp");
    LookupAt(j.fields, 2, "times_broken");
    j
  }

  function DecodePart(j: Json): Option<Part> {
    match (IntField(j, "current_hp"), IntField(j, "max_hp"), IntField(j, "times_broken"))
    case (Some(c), Some(mx), Some(t)) => Some(Part(c, mx, t))
    case _ => None
  }

  lemma DecodeEncodePart(x: Part)
    ensures DecodePart(EncodePart(x)) == Some(x)
  {
  }

  // ---- Ailment ----

  /** `{"current_buildup": …, "max_buildup": …}` */
  function EncodeAilment(x: Ailment): (j: Json)
    ensures j.Object? && |j.fields| == 2
    ensures IntField(j, "current_buildup") == Some(x.current_buildup)
    ensures IntField(j, "max_buildup") == Some(x.max_buildup)
  {
    var j := Object([("current_buildup", Number(x.current_buildup)),
                     ("max_buildup", Number(x.max_buildup))]);
    assert "current_buildup" != "max_buildup";
    LookupAt(j.fields, 0, "current_buildup");
    LookupAt(j.fields, 1, "max_buildup");
    j
  }

  function DecodeAilment(j: Json): Option<Ailment> {
    match (IntField(j, "current_buildup"), IntField(j, "max_buildup"))
    case (Some(c), Some(mx)) => Some(Ailment(c, mx))
    case _ => None
  }

  lemma DecodeEncodeAilment(x: Ailment)
    ensures DecodeAilment(EncodeAilment(x)) == Some(x)
  {
  }

  // ---- lists, in index order ----

  function EncodeParts(xs: seq<Part>): (js: seq<Json>)
    ensures |js| == |xs|
    ensures forall i :: 0 <= i < |xs| ==> js[i] == EncodePart(xs[i])
  {
    if xs == [] then [] else [EncodePart(xs[0])] + EncodeParts(xs[1..])
  }

  function DecodeParts(js: seq<Json>): Option<seq<Part>> {
    if js == [] then Some([])
    else match (DecodePart(js[0]), DecodeParts(js[1..]))
      case (Some(x), Some(rest)) => Some([x] + rest)
      case _ => None
  }

  lemma {:induction false} DecodeEncodeParts(xs: seq<Part>)
    ensures DecodeParts(EncodeParts(xs)) == Some(xs)
  {
    if xs != [] {
      DecodeEncodePart(xs[0]);
      DecodeEncodeParts(xs[1..]);
      assert EncodeParts(xs)[1..] == EncodeParts(xs[1..]);
      assert [xs[0]] + xs[1..] == xs;
    }
  }

  function EncodeAilments(xs: seq<Ailment>): (js: seq<Json>)
    ensures |js| == |xs|
    ensures forall i :: 0 <= i < |xs| ==> js[i] == EncodeAilment(xs[i])
  {
    if xs == [] then [] else [EncodeAilment(xs[0])] + EncodeAilments(xs[1..])
  }

  function DecodeAilments(js: seq<Json>): Option<seq<Ailment>> {
    if js == [] then Some([])
    else match (DecodeAilment(js[0]), DecodeAilments(js[1..]))
      case (Some(x), Some(rest)) => Some([x] + rest)
      case _ => None
  }

  lemma {:induction false} DecodeEncodeAilments(xs: seq<Ailment>)
    ensures DecodeAilments(EncodeAilments(xs)) == Some(xs)
  {
    if xs != [] {
      DecodeEncodeAilment(xs[0]);
      DecodeEncodeAilments(xs[1..]);
      assert EncodeAilments(xs)[1..] == EncodeAilments(xs[1..]);
      assert [xs[0]] + xs[1..] == xs;
    }
  }

  // ---- Monster ----

  /** `{"parts": [Part…], "ailments": [Ailment…]}` */
  function EncodeMonster(mv: MonsterView): (j: Json)
    ensures j.Object? && |j.fields| == 2
    ensures ListField(j, "parts") == Some(EncodeParts(mv.parts))
    ensures ListField(j, "ailments") == Some(EncodeAilments(mv.ailments))
  {
    var j := Object([("parts", List(EncodeParts(mv.parts))),
                     ("ailments", List(EncodeAilments(mv.ailments)))]);
    assert "parts" != "ailments";
    LookupAt(j.fields, 0, "parts");
    LookupAt(j.fields, 1, "ailments");
    j
  }

  function DecodeMonster(j: Json): Option<MonsterView> {
    match (ListField(j, "parts"), ListField(j, "ailments"))
    case (Some(partsJson), Some(ailmentsJson)) =>
      (match (DecodeParts(partsJson), DecodeAilments(ailmentsJson))
       case (Some(parts), Some(ailments)) => Some(MonsterView(parts, ailments))
       case _ => None)
    case _ => None
  }

  lemma DecodeEncodeMonster(mv: MonsterView)
    ensures DecodeMonster(EncodeMonster(mv)) == Some(mv)
  {
    DecodeEncodeParts(mv.parts);
    DecodeEncodeAilments(mv.ailments);
  }

  function EncodeMonsters(xs: seq<MonsterView>): (js: seq<Json>)
    ensures |js| == |xs|
    ensures forall i :: 0 <= i < |xs| ==> js[i] == EncodeMonster(xs[i])
  {
    if xs == [] then [] else [EncodeMonster(xs[0])] + EncodeMonsters(xs[1..])
  }

  function DecodeMonsters(js: seq<Json>): Option<seq<MonsterView>> {
    if js == [] then Some([])
    else match (DecodeMonster(js[0]), DecodeMonsters(js[1..]))
      case (Some(x), Some(rest)) => Some([x] + rest)
      case _ => None
  }

  lemma {:induction false} DecodeEncodeMonsters(xs: seq<MonsterView>)
    ensures DecodeMonsters(EncodeMonsters(xs)) == Some(xs)
  {
    if xs != [] {
      DecodeEncodeMonster(xs[0]);
      DecodeEncodeMonsters(xs[1..]);
      assert EncodeMonsters(xs)[1..] == EncodeMonsters(xs[1..]);
      assert [xs[0]] + xs[1..] == xs;
    }
  }

  // ---- Session ----

  /** `{"monsters": [Monster…]}` */
  function EncodeSession(sv: SessionView): (j: Json)
    ensures j.Object? && |j.fields| == 1
    ensures ListField(j, "monsters") == Some(EncodeMonsters(sv.monsters))
  {
    var j := Object([("monsters", List(EncodeMonsters(sv.monsters)))]);
    LookupAt(j.fields, 0, "monsters");
    j
  }

  function DecodeSession(j: Json): Option<SessionView> {
    match ListField(j, "monsters")
    case Some(ms) =>
      (match DecodeMonsters(ms)
       case Some(monsters) => Some(SessionView(monsters))
       case None => None)
    case None => None
  }

  lemma DecodeEncodeSession(sv: SessionView)
    ensures DecodeSession(EncodeSession(sv)) == Some(sv)
  {
    DecodeEncodeMonsters(sv.monsters);
  }

  /** Two sessions that serialise alike are equal. */
  lemma EncodeSessionInjective(a: SessionView, b: SessionView)
    requires EncodeSession(a) == EncodeSession(b)
    ensures a == b
  {
    DecodeEncodeSession(a);
    DecodeEncodeSession(b);
  }

  // ---- Python's str(int) ----

  predicate IsDigit(c: char) {
    '0' <= c <= '9'
  }

  predicate AllDigits(s: string) {
    forall i :: 0 <= i < |s| ==> IsDigit(s[i])
  }

  function DigitChar(d: nat): (c: char)
    requires d < 10
    ensures IsDigit(c) && c as int - '0' as int == d
  {
    (d + '0' as int) as char
  }

  /** The decimal digits of `n`, most significant first, without leading zeros. */
  function NatDigits(n: nat): (s: string)
    ensures |s| >= 1 && AllDigits(s)
    ensures s[0] == '0' ==> n == 0
  {
    if n < 10 then [DigitChar(n)] else NatDigits(n / 10) + [DigitChar(n % 10)]
  }

  /** The number a string of decimal digits denotes. */
  function DigitsValue(s: string): nat
    requires AllDigits(s)
  {
    if s == [] then 0
    else DigitsValue(s[..|s| - 1]) * 10 + (s[|s| - 1] as int - '0' as int)
  }

  lemma {:induction false} DigitsValueNatDigits(n: nat)
    ensures DigitsValue(NatDigits(n)) == n
  {
    if n >= 10 {
      var s := NatDigits(n);
      assert s[..|s| - 1] == NatDigits(n / 10);
      DigitsValueNatDigits(n / 10);
    }
  }

  /**
   * `str(n)`: a leading '-' exactly for negatives, then the decimal digits
   * of |n|, with no leading zero and no "-0".
   */
  function Str(n: int): (s: string)
    ensures |s| >= 1
    ensures n < 0 <==> s[0] == '-'
    ensures n >= 0 ==> AllDigits(s) && (s[0] == '0' ==> n == 0)
    ensures n < 0 ==> |s| >= 2 && AllDigits(s[1..]) && s[1] != '0'
  {
    if n < 0 then
      var s := "-" + NatDigits(-n);
      assert s[1..] == NatDigits(-n);
      s
    else NatDigits(n)
  }

  /** Reads back a canonical decimal integer; anything else is `None`. */
  function ParseInt(s: string): Option<int> {
    if |s| >= 2 && s[0] == '-' && AllDigits(s[1..]) then Some(-(DigitsValue(s[1..]) as int))
    else if |s| >= 1 && AllDigits(s) then Some(DigitsValue(s))
    else None
  }

  /** A scalar read loses nothing: its text parses back to the stored value. */
  lemma ParseIntStr(n: int)
    ensures ParseInt(Str(n)) == Some(n)
  {
    if n < 0 {
      assert Str(n)[1..] == NatDigits(-n);
      DigitsValueNatDigits(-n);
    } else {
      DigitsValueNatDigits(n);
    }
  }

  /** Distinct values read as distinct strings. */
  lemma StrInjective(a: int, b: int)
    requires Str(a) == Str(b)
    ensures a == b
  {
    ParseIntStr(a);
    ParseIntStr(b);
  }
}
