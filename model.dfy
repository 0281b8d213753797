/**
 * The entity hierarchy of the session tracker as values: the leaf records
 * Part and Ailment, and value views of a Monster, a Session and the whole
 * registry. The classes in module Tracker hold the mutable objects; their
 * View() functions map them onto these values, and the handlers are
 * specified by the pure update functions below.
 */
module Model {

  /** Globals.bufferSize: the number of parts and of ailments of every monster. */
  const BufferSize: nat := 50
  /** A session holds exactly three monsters. */
  const MonsterCount: nat := 3

  /** A damageable part of a monster; every field starts at 0. */
  datatype Part = Part(current_hp: int, max_hp: int, times_broken: int)
  /** A status-effect buildup tracker; every field starts at 0. */
  datatype Ailment = Ailment(current_buildup: int, max_buildup: int)

  /** The value of a freshly constructed `Part()`. */
  const DefaultPart: Part := Part(0, 0, 0)
  /** The value of a freshly constructed `Ailment()`. */
  const DefaultAilment: Ailment := Ailment(0, 0)

  datatype MonsterView = MonsterView(parts: seq<Part>, ailments: seq<Ailment>)
  datatype SessionView = SessionView(monsters: seq<MonsterView>)
  /** The registry: session name to session. */
  type State = map<string, SessionView>

  /**
   * What a monster holds right after construction, and after `clear`:
   * `BufferSize` parts and ailments, every field 0.
   */
  function FreshMonster(): (mv: MonsterView)
    ensures MonsterShaped(mv) && IsZeroMonster(mv)
  {
    MonsterView(seq(BufferSize, i => DefaultPart), seq(BufferSize, i => DefaultAilment))
  }

  /** What a session holds right after construction: three fresh monsters. */
  function FreshSession(): (sv: SessionView)
    ensures SessionShaped(sv)
    ensures forall i :: 0 <= i < |sv.monsters| ==> IsZeroMonster(sv.monsters[i])
  {
    SessionView([FreshMonster(), FreshMonster(), FreshMonster()])
  }

  predicate MonsterShaped(mv: MonsterView) {
    |mv.parts| == BufferSize && |mv.ailments| == BufferSize
  }

  predicate SessionShaped(sv: SessionView) {
    |sv.monsters| == MonsterCount &&
    forall i :: 0 <= i < |sv.monsters| ==> MonsterShaped(sv.monsters[i])
  }

  /** The invariant of the whole registry: every session has the fixed shape. */
  predicate StateShaped(st: State) {
    forall n :: n in st ==> SessionShaped(st[n])
  }

  /** Every part and every ailment of the monster has all fields 0. */
  predicate IsZeroMonster(mv: MonsterView) {
    (forall j :: 0 <= j < |mv.parts| ==> mv.parts[j] == DefaultPart) &&
    (forall j :: 0 <= j < |mv.ailments| ==> mv.ailments[j] == DefaultAilment)
  }

  /** Paths that the handlers admit: the session exists and both indices are in range. */
  predicate MonsterAddressable(st: State, name: string, m: int) {
    name in st && 0 <= m < MonsterCount
  }

  predicate SlotAddressable(st: State, name: string, m: int, k: int) {
    MonsterAddressable(st, name, m) && 0 <= k < BufferSize
  }

  function MonsterAt(st: State, name: string, m: int): MonsterView
    requires StateShaped(st) && MonsterAddressable(st, name, m)
  {
    st[name].monsters[m]
  }

  function PartAt(st: State, name: string, m: int, p: int): Part
    requires StateShaped(st) && SlotAddressable(st, name, m, p)
  {
    st[name].monsters[m].parts[p]
  }

  function AilmentAt(st: State, name: string, m: int, a: int): Ailment
    requires StateShaped(st) && SlotAddressable(st, name, m, a)
  {
    st[name].monsters[m].ailments[a]
  }

  /** The registry with monster `m` of session `name` replaced by `mv`. */
  function WithMonster(st: State, name: string, m: int, mv: MonsterView): (st': State)
    requires StateShaped(st) && MonsterAddressable(st, name, m) && MonsterShaped(mv)
    ensures StateShaped(st') && st'.Keys == st.Keys
    ensures MonsterAt(st', name, m) == mv
    ensures forall n :: n in st && n != name ==> st'[n] == st[n]
    ensures forall i :: 0 <= i < MonsterCount && i != m ==> st'[name].monsters[i] == st[name].monsters[i]
  {
    st[name := SessionView(st[name].monsters[m := mv])]
  }

  /** The registry with part `p` of monster `m` of session `name` replaced by `x`. */
  function WithPart(st: State, name: string, m: int, p: int, x: Part): (st': State)
    requires StateShaped(st) && SlotAddressable(st, name, m, p)
    ensures StateShaped(st') && st'.Keys == st.Keys
    ensures PartAt(st', name, m, p) == x
    ensures forall q :: 0 <= q < BufferSize && q != p ==> PartAt(st', name, m, q) == PartAt(st, name, m, q)
    ensures MonsterAt(st', name, m).ailments == MonsterAt(st, name, m).ailments
    ensures forall i :: 0 <= i < MonsterCount && i != m ==> st'[name].monsters[i] == st[name].monsters[i]
    ensures forall n :: n in st && n != name ==> st'[n] == st[n]
  {
    var mv := MonsterAt(st, name, m);
    WithMonster(st, name, m, mv.(parts := mv.parts[p := x]))
  }

  /** The registry with ailment `a` of monster `m` of session `name` replaced by `x`. */
  function WithAilment(st: State, name: string, m: int, a: int, x: Ailment): (st': State)
    requires StateShaped(st) && SlotAddressable(st, name, m, a)
    ensures StateShaped(st') && st'.Keys == st.Keys
    ensures AilmentAt(st', name, m, a) == x
    ensures forall q :: 0 <= q < BufferSize && q != a ==> AilmentAt(st', name, m, q) == AilmentAt(st, name, m, q)
    ensures MonsterAt(st', name, m).parts == MonsterAt(st, name, m).parts
    ensures forall i :: 0 <= i < MonsterCount && i != m ==> st'[name].monsters[i] == st[name].monsters[i]
    ensures forall n :: n in st && n != name ==> st'[n] == st[n]
  {
    var mv := MonsterAt(st, name, m);
    WithMonster(st, name, m, mv.(ailments := mv.ailments[a := x]))
  }

  /** `Monster.clear`: every part and ailment of the monster goes back to its default. */
  function WithMonsterCleared(st: State, name: string, m: int): (st': State)
    requires StateShaped(st) && MonsterAddressable(st, name, m)
    ensures StateShaped(st') && st'.Keys == st.Keys
    ensures MonsterShaped(MonsterAt(st', name, m)) && IsZeroMonster(MonsterAt(st', name, m))
    ensures forall i :: 0 <= i < MonsterCount && i != m ==> st'[name].monsters[i] == st[name].monsters[i]
    ensures forall n :: n in st && n != name ==> st'[n] == st[n]
  {
    WithMonster(st, name, m, FreshMonster())
  }

  /** Clearing a monster twice is the same as clearing it once. */
  lemma ClearIdempotent(st: State, name: string, m: int)
    requires StateShaped(st) && MonsterAddressable(st, name, m)
    ensures WithMonsterCleared(WithMonsterCleared(st, name, m), name, m) == WithMonsterCleared(st, name, m)
  {
    var once := WithMonsterCleared(st, name, m);
    assert once[name].monsters[m := FreshMonster()] == once[name].monsters;
  }

  /** Writing back the part that is already there changes nothing. */
  lemma WithPartUnchanged(st: State, name: string, m: int, p: int)
    requires StateShaped(st) && SlotAddressable(st, name, m, p)
    ensures WithPart(st, name, m, p, PartAt(st, name, m, p)) == st
  {
    var mv := MonsterAt(st, name, m);
    assert mv.parts[p := mv.parts[p]] == mv.parts;
    assert st[name].monsters[m := mv] == st[name].monsters;
  }

  /** Writing back the ailment that is already there changes nothing. */
  lemma WithAilmentUnchanged(st: State, name: string, m: int, a: int)
    requires StateShaped(st) && SlotAddressable(st, name, m, a)
    ensures WithAilment(st, name, m, a, AilmentAt(st, name, m, a)) == st
  {
    var mv := MonsterAt(st, name, m);
    assert mv.ailments[a := mv.ailments[a]] == mv.ailments;
    assert st[name].monsters[m := mv] == st[name].monsters;
  }
}
