/**
 * What a handler answers: a status code and a value. This mirrors the
 * `Status` dictionaries and the fixed validation sequence every handler
 * runs: does the session exist, then is the monster index in range(3),
 * then is the part or ailment index in range(bufferSize). The first failing
 * check decides the answer. The functions here give the answer of each
 * read handler, and the handlers in module Tracker are proved to return it.
 */
module Protocol {
  import opened Wrappers
  import opened Model
  import opened Encoding

  const OK: int := 0
  const SESSION_DOES_NOT_EXIST: int := 1
  const SESSION_ALREADY_EXISTS: int := 2
  const MONSTER_OUTSIDE_RANGE: int := 3
  const PART_OUTSIDE_RANGE: int := 4
  const AILMENT_OUTSIDE_RANGE: int := 5
  const INTERNAL_FAILURE: int := 10

  /**
   * A response value: text (the empty string, an error message or `str` of
   * a field), a structured entity, or the diagnostic text of an internal
   * failure, which depends on Python's exception formatting and the request
   * path and is not modelled.
   */
  datatype Value = Text(text: string) | Structured(json: Json) | Diagnostic
  datatype Response = Response(status: int, value: Value)

  function Ok(v: Value): Response {
    Response(OK, v)
  }

  /** `Status.ok` with an empty value: what every successful write answers. */
  const Done: Response := Response(OK, Text(""))
  const SessionDoesNotExist: Response := Response(SESSION_DOES_NOT_EXIST, Text("session does not exist"))
  const SessionAlreadyExists: Response := Response(SESSION_ALREADY_EXISTS, Text("session already exists"))
  const MonsterOutsideRange: Response := Response(MONSTER_OUTSIDE_RANGE, Text("monster outside range"))
  const PartOutsideRange: Response := Response(PART_OUTSIDE_RANGE, Text("part outside range"))
  const AilmentOutsideRange: Response := Response(AILMENT_OUTSIDE_RANGE, Text("ailment outside range"))
  /** What `handle_exception` answers for a fault raised inside a handler. */
  const InternalFailure: Response := Response(INTERNAL_FAILURE, Diagnostic)

  // ---- validation, in the order the handlers run it ----

  /** The rejection of a session-level request, or None when it may proceed. */
  function SessionRejection(st: State, name: string): (r: Option<Response>)
    ensures r == None <==> name in st
    ensures r.Some? ==> r.value == SessionDoesNotExist
  {
    if name !in st then Some(SessionDoesNotExist) else None
  }

  /** The rejection of a monster-level request, or None when it may proceed. */
  function MonsterRejection(st: State, name: string, m: int): (r: Option<Response>)
    ensures r == None <==> MonsterAddressable(st, name, m)
    ensures name !in st ==> r == Some(SessionDoesNotExist)
    ensures name in st && !(0 <= m < MonsterCount) ==> r == Some(MonsterOutsideRange)
  {
    if SessionRejection(st, name).Some? then SessionRejection(st, name)
    else if !(0 <= m < MonsterCount) then Some(MonsterOutsideRange)
    else None
  }

  /** The rejection of a part-level request, or None when it may proceed. */
  function PartRejection(st: State, name: string, m: int, p: int): (r: Option<Response>)
    ensures r == None <==> SlotAddressable(st, name, m, p)
    ensures name !in st ==> r == Some(SessionDoesNotExist)
    ensures name in st && !(0 <= m < MonsterCount) ==> r == Some(MonsterOutsideRange)
    ensures MonsterAddressable(st, name, m) && !(0 <= p < BufferSize) ==> r == Some(PartOutsideRange)
  {
    if MonsterRejection(st, name, m).Some? then MonsterRejection(st, name, m)
    else if !(0 <= p < BufferSize) then Some(PartOutsideRange)
    else None
  }

  /** The rejection of an ailment-level request, or None when it may proceed. */
  function AilmentRejection(st: State, name: string, m: int, a: int): (r: Option<Response>)
    ensures r == None <==> SlotAddressable(st, name, m, a)
    ensures name !in st ==> r == Some(SessionDoesNotExist)
    ensures name in st && !(0 <= m < MonsterCount) ==> r == Some(MonsterOutsideRange)
    ensures MonsterAddressable(st, name, m) && !(0 <= a < BufferSize) ==> r == Some(AilmentOutsideRange)
  {
    if MonsterRejection(st, name, m).Some? then MonsterRejection(st, name, m)
    else if !(0 <= a < BufferSize) then Some(AilmentOutsideRange)
    else None
  }

  /**
   * The error precedence does not depend on the indices that are checked
   * later: a missing session wins over any index, a bad monster index wins
   * over any part or ailment index.
   */
  lemma RejectionPrecedence(st: State, name: string, m: int, m': int, k: int, k': int)
    ensures name !in st ==> PartRejection(st, name, m, k) == AilmentRejection(st, name, m', k') == MonsterRejection(st, name, m)
    ensures name in st && !(0 <= m < MonsterCount) ==>
      PartRejection(st, name, m, k) == AilmentRejection(st, name, m, k') == Some(MonsterOutsideRange)
    ensures PartRejection(st, name, m, k).Some? ==> PartRejection(st, name, m, k).value.status in {1, 3, 4}
    ensures AilmentRejection(st, name, m, k).Some? ==> AilmentRejection(st, name, m, k).value.status in {1, 3, 5}
  {
  }

  // ---- the fields a scalar route reads or writes ----

  datatype PartField = CurrentHp | MaxHp | TimesBroken
  datatype AilmentField = CurrentBuildup | MaxBuildup

  function PartFieldOf(x: Part, f: PartField): int {
    match f
    case CurrentHp => x.current_hp
    case MaxHp => x.max_hp
    case TimesBroken => x.times_broken
  }

  function AilmentFieldOf(x: Ailment, f: AilmentField): int {
    match f
    case CurrentBuildup => x.current_buildup
    case MaxBuildup => x.max_buildup
  }

  /** The part with one field replaced: that field reads `v`, the others are kept. */
  function SetPartField(x: Part, f: PartField, v: int): (y: Part)
    ensures PartFieldOf(y, f) == v
    ensures forall g :: g != f ==> PartFieldOf(y, g) == PartFieldOf(x, g)
  {
    match f
    case CurrentHp => x.(current_hp := v)
    case MaxHp => x.(max_hp := v)
    case TimesBroken => x.(times_broken := v)
  }

  /** The ailment with one field replaced: that field reads `v`, the other is kept. */
  function SetAilmentField(x: Ailment, f: AilmentField, v: int): (y: Ailment)
    ensures AilmentFieldOf(y, f) == v
    ensures forall g :: g != f ==> AilmentFieldOf(y, g) == AilmentFieldOf(x, g)
  {
    match f
    case CurrentBuildup => x.(current_buildup := v)
    case MaxBuildup => x.(max_buildup := v)
  }

  // ---- the answers of the read handlers ----

  /** session_info: status 0 with "" exactly when the name is registered. */
  function SessionInfoAnswer(st: State, name: string): (r: Response)
    ensures r.status == OK <==> name in st
    ensures name in st ==> r == Done
    ensures name !in st ==> r == SessionDoesNotExist
  {
    if name in st then Done else SessionDoesNotExist
  }

  /** get_session: the rejection, or the session's serialisation, which decodes back to it. */
  function SessionAnswer(st: State, name: string): (r: Response)
    ensures r.status == OK <==> name in st
    ensures name !in st ==> r == SessionDoesNotExist
    ensures name in st ==> r.value.Structured? && DecodeSession(r.value.json) == Some(st[name])
  {
    match SessionRejection(st, name)
    case Some(r) => r
    case None =>
      DecodeEncodeSession(st[name]);
      Ok(Structured(EncodeSession(st[name])))
  }

  /** get_monster: the first rejection, or the monster's serialisation. */
  function MonsterAnswer(st: State, name: string, m: int): (r: Response)
    requires StateShaped(st)
    ensures r.status == OK <==> MonsterAddressable(st, name, m)
    ensures r.status != OK ==> Some(r) == MonsterRejection(st, name, m)
    ensures r.status == OK ==> r.value.Structured? && DecodeMonster(r.value.json) == Some(MonsterAt(st, name, m))
  {
    match MonsterRejection(st, name, m)
    case Some(r) => r
    case None =>
      DecodeEncodeMonster(MonsterAt(st, name, m));
      Ok(Structured(EncodeMonster(MonsterAt(st, name, m))))
  }

  /** get_part: the first rejection, or the part's serialisation. */
  function PartAnswer(st: State, name: string, m: int, p: int): (r: Response)
    requires StateShaped(st)
    ensures r.status == OK <==> SlotAddressable(st, name, m, p)
    ensures r.status != OK ==> Some(r) == PartRejection(st, name, m, p)
    ensures r.status == OK ==> r.value.Structured? && DecodePart(r.value.json) == Some(PartAt(st, name, m, p))
  {
    match PartRejection(st, name, m, p)
    case Some(r) => r
    case None =>
      DecodeEncodePart(PartAt(st, name, m, p));
      Ok(Structured(EncodePart(PartAt(st, name, m, p))))
  }

  /** get_current_part_hp, get_max_part_hp, get_part_times_broken: the rejection, or `str` of the field. */
  function PartFieldAnswer(st: State, name: string, m: int, p: int, f: PartField): (r: Response)
    requires StateShaped(st)
    ensures r.status == OK <==> SlotAddressable(st, name, m, p)
    ensures r.status != OK ==> Some(r) == PartRejection(st, name, m, p)
    ensures r.status == OK ==> r.value.Text? && ParseInt(r.value.text) == Some(PartFieldOf(PartAt(st, name, m, p), f))
  {
    match PartRejection(st, name, m, p)
    case Some(r) => r
    case None =>
      ParseIntStr(PartFieldOf(PartAt(st, name, m, p), f));
      Ok(Text(Str(PartFieldOf(PartAt(st, name, m, p), f))))
  }

  /**
   * get_ailment. Once validation passes, the handler calls a `get_all`
   * method that `Ailment` does not have; the fault surfaces as status 10.
   */
  function AilmentAnswer(st: State, name: string, m: int, a: int): (r: Response)
    ensures r.status != OK
    ensures r.status == INTERNAL_FAILURE <==> SlotAddressable(st, name, m, a)
    ensures r.status != INTERNAL_FAILURE ==> Some(r) == AilmentRejection(st, name, m, a)
  {
    match AilmentRejection(st, name, m, a)
    case Some(r) => r
    case None => InternalFailure
  }

  /** get_current_ailment_buildup, get_max_ailment_buildup: the rejection, or `str` of the field. */
  function AilmentFieldAnswer(st: State, name: string, m: int, a: int, f: AilmentField): (r: Response)
    requires StateShaped(st)
    ensures r.status == OK <==> SlotAddressable(st, name, m, a)
    ensures r.status != OK ==> Some(r) == AilmentRejection(st, name, m, a)
    ensures r.status == OK ==> r.value.Text? && ParseInt(r.value.text) == Some(AilmentFieldOf(AilmentAt(st, name, m, a), f))
  {
    match AilmentRejection(st, name, m, a)
    case Some(r) => r
    case None =>
      ParseIntStr(AilmentFieldOf(AilmentAt(st, name, m, a), f));
      Ok(Text(Str(AilmentFieldOf(AilmentAt(st, name, m, a), f))))
  }

  // ---- properties of the answers ----

  /** Every read route under a session name that is not registered answers status 1. */
  lemma MissingSessionReads(st: State, name: string, m: int, k: int, f: PartField, g: AilmentField)
    requires StateShaped(st) && name !in st
    ensures SessionInfoAnswer(st, name) == SessionAnswer(st, name) == MonsterAnswer(st, name, m) == SessionDoesNotExist
    ensures PartAnswer(st, name, m, k) == PartFieldAnswer(st, name, m, k, f) == SessionDoesNotExist
    ensures AilmentAnswer(st, name, m, k) == AilmentFieldAnswer(st, name, m, k, g) == SessionDoesNotExist
  {
  }

  /** A successful get_ailment never carries the ailment: status 10 on every valid path. */
  lemma AilmentAnswerFaults(st: State, name: string, m: int, a: int)
    requires SlotAddressable(st, name, m, a)
    ensures AilmentAnswer(st, name, m, a).status == INTERNAL_FAILURE
  {
  }

  /**
   * set_all on a part followed by a structured read or any scalar read gives
   * back exactly the written values; `str` of each field parses back to it.
   */
  lemma ReadAfterWritePart(st: State, name: string, m: int, p: int, x: Part, f: PartField)
    requires StateShaped(st) && SlotAddressable(st, name, m, p)
    ensures PartAnswer(WithPart(st, name, m, p, x), name, m, p) == Ok(Structured(EncodePart(x)))
    ensures DecodePart(PartAnswer(WithPart(st, name, m, p, x), name, m, p).value.json) == Some(x)
    ensures PartFieldAnswer(WithPart(st, name, m, p, x), name, m, p, f) == Ok(Text(Str(PartFieldOf(x, f))))
    ensures ParseInt(PartFieldAnswer(WithPart(st, name, m, p, x), name, m, p, f).value.text) == Some(PartFieldOf(x, f))
  {
    DecodeEncodePart(x);
    ParseIntStr(PartFieldOf(x, f));
  }

  /** Writing one field of a part and reading it back yields the written value. */
  lemma ReadAfterWritePartField(st: State, name: string, m: int, p: int, f: PartField, v: int)
    requires StateShaped(st) && SlotAddressable(st, name, m, p)
    ensures var st' := WithPart(st, name, m, p, SetPartField(PartAt(st, name, m, p), f, v));
      PartFieldAnswer(st', name, m, p, f) == Ok(Text(Str(v))) &&
      forall g :: g != f ==> PartFieldAnswer(st', name, m, p, g) == PartFieldAnswer(st, name, m, p, g)
  {
  }

  /** Writing one field of an ailment and reading it back yields the written value. */
  lemma ReadAfterWriteAilmentField(st: State, name: string, m: int, a: int, f: AilmentField, v: int)
    requires StateShaped(st) && SlotAddressable(st, name, m, a)
    ensures var st' := WithAilment(st, name, m, a, SetAilmentField(AilmentAt(st, name, m, a), f, v));
      AilmentFieldAnswer(st', name, m, a, f) == Ok(Text(Str(v))) &&
      forall g :: g != f ==> AilmentFieldAnswer(st', name, m, a, g) == AilmentFieldAnswer(st, name, m, a, g)
  {
  }

  /** set_all on an ailment followed by the two scalar reads gives back the written values. */
  lemma ReadAfterWriteAilment(st: State, name: string, m: int, a: int, x: Ailment, f: AilmentField)
    requires StateShaped(st) && SlotAddressable(st, name, m, a)
    ensures AilmentFieldAnswer(WithAilment(st, name, m, a, x), name, m, a, f) == Ok(Text(Str(AilmentFieldOf(x, f))))
    ensures ParseInt(AilmentFieldAnswer(WithAilment(st, name, m, a, x), name, m, a, f).value.text) == Some(AilmentFieldOf(x, f))
  {
    ParseIntStr(AilmentFieldOf(x, f));
  }

  /** After clear, every scalar read of that monster answers "0". */
  lemma ReadAfterClear(st: State, name: string, m: int, k: int, f: PartField, g: AilmentField)
    requires StateShaped(st) && SlotAddressable(st, name, m, k)
    ensures PartFieldAnswer(WithMonsterCleared(st, name, m), name, m, k, f) == Ok(Text("0"))
    ensures AilmentFieldAnswer(WithMonsterCleared(st, name, m), name, m, k, g) == Ok(Text("0"))
  {
    var st' := WithMonsterCleared(st, name, m);
    assert PartAt(st', name, m, k) == DefaultPart;
    assert AilmentAt(st', name, m, k) == DefaultAilment;
  }
}
