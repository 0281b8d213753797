/**
 * The mutable objects of the tracker and its route handlers. A Monster owns
 * two lists, of parts and of ailments, built by appending and afterwards
 * overwritten slot by slot. A Session owns its three monsters. The Registry
 * stands for the module-level `sessions` dictionary and carries one method
 * per handler. Monster and Session have a View() onto the values of module
 * Model; the Registry keeps the value of the whole dictionary in a ghost
 * field, and every handler is specified against it.
 */
module Tracker {
  import opened Wrappers
  import opened Model
  import opened Encoding
  import opened Protocol

  class Monster {
    var parts: seq<Part>
    var ailments: seq<Ailment>

    ghost predicate Valid()
      reads this
    {
      |parts| == BufferSize && |ailments| == BufferSize
    }

    function View(): (mv: MonsterView)
      reads this
      ensures Valid() ==> MonsterShaped(mv)
    {
      MonsterView(parts, ailments)
    }

    /** `Monster.__init__`: `bufferSize` default parts and ailments, appended in order. */
    constructor ()
      ensures Valid() && View() == FreshMonster()
    {
      parts := [];
      ailments := [];
      new;
      for i := 0 to BufferSize
        invariant |parts| == i && |ailments| == i
        invariant forall k :: 0 <= k < i ==> parts[k] == DefaultPart
        invariant forall k :: 0 <= k < i ==> ailments[k] == DefaultAilment
      {
        parts := parts + [DefaultPart];
        ailments := ailments + [DefaultAilment];
      }
    }

    /** `Monster.clear`: overwrite every slot with a fresh default; lengths stay. */
    method Clear()
      requires Valid()
      modifies this
      ensures View() == FreshMonster()
    {
      for i := 0 to BufferSize
        invariant |parts| == BufferSize && |ailments| == BufferSize
        invariant forall k :: 0 <= k < i ==> parts[k] == DefaultPart
        invariant forall k :: 0 <= k < i ==> ailments[k] == DefaultAilment
      {
        parts := parts[i := DefaultPart];
        ailments := ailments[i := DefaultAilment];
      }
    }

    /** Overwrite part slot `p`. */
    method StorePart(p: int, x: Part)
      requires Valid() && 0 <= p < BufferSize
      modifies this
      ensures Valid() && View() == old(View()).(parts := old(View()).parts[p := x])
    {
      parts := parts[p := x];
    }

    /** Overwrite ailment slot `a`. */
    method StoreAilment(a: int, x: Ailment)
      requires Valid() && 0 <= a < BufferSize
      modifies this
      ensures Valid() && View() == old(View()).(ailments := old(View()).ailments[a := x])
    {
      ailments := ailments[a := x];
    }
  }

  class Session {
    const monsters: seq<Monster>
    /** The three monsters. */
    ghost const Repr: set<object>

    /** Three distinct well-formed monsters. */
    ghost predicate Valid()
      reads Repr
    {
      |monsters| == MonsterCount &&
      monsters[0] != monsters[1] && monsters[0] != monsters[2] && monsters[1] != monsters[2] &&
      Repr == {monsters[0], monsters[1], monsters[2]} &&
      monsters[0].Valid() && monsters[1].Valid() && monsters[2].Valid()
    }

    function View(): (sv: SessionView)
      requires Valid()
      reads Repr
      ensures SessionShaped(sv)
    {
      SessionView([monsters[0].View(), monsters[1].View(), monsters[2].View()])
    }

    /** `Session.__init__`: three new monsters. */
    constructor ()
      ensures Valid() && fresh(Repr)
      ensures View() == FreshSession()
    {
      var m0 := new Monster();
      var m1 := new Monster();
      var m2 := new Monster();
      monsters := [m0, m1, m2];
      Repr := {m0, m1, m2};
    }

    /** Overwrite part slot `p` of monster `m`; nothing else of the session changes. */
    method StorePart(m: int, p: int, x: Part)
      requires Valid() && 0 <= m < MonsterCount && 0 <= p < BufferSize
      modifies Repr
      ensures Valid()
      ensures View() == SessionView(old(View()).monsters[m := old(View()).monsters[m].(parts := old(View()).monsters[m].parts[p := x])])
    {
      monsters[m].StorePart(p, x);
    }

    /** Overwrite ailment slot `a` of monster `m`; nothing else of the session changes. */
    method StoreAilment(m: int, a: int, x: Ailment)
      requires Valid() && 0 <= m < MonsterCount && 0 <= a < BufferSize
      modifies Repr
      ensures Valid()
      ensures View() == SessionView(old(View()).monsters[m := old(View()).monsters[m].(ailments := old(View()).monsters[m].ailments[a := x])])
    {
      monsters[m].StoreAilment(a, x);
    }

    /** Clear monster `m`; the other two monsters keep their contents. */
    method ClearMonster(m: int)
      requires Valid() && 0 <= m < MonsterCount
      modifies Repr
      ensures Valid()
      ensures View() == SessionView(old(View()).monsters[m := FreshMonster()])
    {
      monsters[m].Clear();
    }
  }

  class Registry {
    var sessions: map<string, Session>
    /** Every monster owned by a registered session. */
    ghost var Repr: set<object>
    /** The value of the whole registry. */
    ghost var model: State

    /**
     * Well-formed sessions whose monsters lie in Repr and are never shared
     * between two names, and `model` is their value.
     */
    ghost predicate Valid()
      reads this, Repr
      ensures Valid() ==> StateShaped(model)
    {
      this !in Repr &&
      model.Keys == sessions.Keys &&
      Coherent(sessions, model, Repr)
    }

    /** Session `s` is well formed and its value is `sv`. */
    static ghost predicate Abstracts(s: Session, sv: SessionView)
      reads s.Repr
    {
      s.Valid() && sv == s.View()
    }

    /** No two names share a monster. */
    static ghost predicate Disjoint(ss: map<string, Session>) {
      forall n, n' :: n in ss && n' in ss && n != n' ==> ss[n].Repr !! ss[n'].Repr
    }

    /** Every session of `ss` lies in `R` and has its value in `st`; none shares a monster. */
    static ghost predicate Coherent(ss: map<string, Session>, st: State, R: set<object>)
      reads R
      ensures Coherent(ss, st, R) ==> forall n :: n in ss && n in st ==> SessionShaped(st[n])
    {
      Disjoint(ss) &&
      forall n :: n in ss ==> ss[n].Repr <= R && n in st && Abstracts(ss[n], st[n])
    }

    static lemma CoherentRemove(ss: map<string, Session>, st: State, R: set<object>, name: string)
      requires Coherent(ss, st, R)
      ensures Coherent(ss - {name}, st - {name}, R)
    {
    }

    static lemma CoherentAdd(ss: map<string, Session>, st: State, R: set<object>, name: string, s: Session)
      requires Coherent(ss, st, R) && name !in ss && s.Valid() && s.Repr !! R
      ensures Coherent(ss[name := s], st[name := s.View()], R + s.Repr)
    {
    }

    static lemma CoherentReplace(ss: map<string, Session>, st: State, R: set<object>, name: string, st': State)
      requires Disjoint(ss) && name in ss && st'.Keys == st.Keys
      requires forall n :: n in ss ==> ss[n].Repr <= R && n in st
      requires forall n :: n in ss && n != name ==> Abstracts(ss[n], st[n]) && st'[n] == st[n]
      requires Abstracts(ss[name], st'[name])
      ensures Coherent(ss, st', R)
    {
    }

    /** The empty `sessions` dictionary at process start. */
    constructor ()
      ensures Valid() && model == map[] && Repr == {}
    {
      sessions := map[];
      Repr := {};
      model := map[];
    }

    // ---- validation steps shared by the handlers ----

    method CheckMonster(name: string, m: int) returns (rej: Option<Response>)
      requires Valid()
      ensures rej == MonsterRejection(model, name, m)
    {
      if name !in sessions {
        return Some(SessionDoesNotExist);
      }
      if !(0 <= m < MonsterCount) {
        return Some(MonsterOutsideRange);
      }
      return None;
    }

    method CheckPart(name: string, m: int, p: int) returns (rej: Option<Response>)
      requires Valid()
      ensures rej == PartRejection(model, name, m, p)
    {
      rej := CheckMonster(name, m);
      if rej.None? && !(0 <= p < BufferSize) {
        rej := Some(PartOutsideRange);
      }
    }

    method CheckAilment(name: string, m: int, a: int) returns (rej: Option<Response>)
      requires Valid()
      ensures rej == AilmentRejection(model, name, m, a)
    {
      rej := CheckMonster(name, m);
      if rej.None? && !(0 <= a < BufferSize) {
        rej := Some(AilmentOutsideRange);
      }
    }

    // ---- reads and in-place writes on a validated path ----

    method LoadMonster(name: string, m: int) returns (mv: MonsterView)
      requires Valid() && MonsterAddressable(model, name, m)
      ensures mv == MonsterAt(model, name, m)
    {
      mv := sessions[name].monsters[m].View();
    }

    method LoadPart(name: string, m: int, p: int) returns (x: Part)
      requires Valid() && SlotAddressable(model, name, m, p)
      ensures x == PartAt(model, name, m, p)
    {
      x := sessions[name].monsters[m].parts[p];
    }

    method LoadAilment(name: string, m: int, a: int) returns (x: Ailment)
      requires Valid() && SlotAddressable(model, name, m, a)
      ensures x == AilmentAt(model, name, m, a)
    {
      x := sessions[name].monsters[m].ailments[a];
    }

    /** Overwrite one part slot; only that slot of that monster of that session changes. */
    method StorePart(name: string, m: int, p: int, x: Part)
      requires Valid() && SlotAddressable(model, name, m, p)
      modifies this`model, Repr
      ensures Valid()
      ensures model == WithPart(old(model), name, m, p, x)
    {
      var session := sessions[name];
      ghost var st' := WithPart(model, name, m, p, x);
      session.StorePart(m, p, x);
      forall n | n in sessions && n != name
        ensures Abstracts(sessions[n], model[n])
      {
        assert sessions[n].Repr !! session.Repr;
      }
      CoherentReplace(sessions, model, Repr, name, st');
      model := st';
    }

    /** Overwrite one ailment slot; only that slot of that monster of that session changes. */
    method StoreAilment(name: string, m: int, a: int, x: Ailment)
      requires Valid() && SlotAddressable(model, name, m, a)
      modifies this`model, Repr
      ensures Valid()
      ensures model == WithAilment(old(model), name, m, a, x)
    {
      var session := sessions[name];
      ghost var st' := WithAilment(model, name, m, a, x);
      session.StoreAilment(m, a, x);
      forall n | n in sessions && n != name
        ensures Abstracts(sessions[n], model[n])
      {
        assert sessions[n].Repr !! session.Repr;
      }
      CoherentReplace(sessions, model, Repr, name, st');
      model := st';
    }

    /** Clear monster `m` of session `name`; every other monster keeps its contents. */
    method StoreCleared(name: string, m: int)
      requires Valid() && MonsterAddressable(model, name, m)
      modifies this`model, Repr
      ensures Valid()
      ensures model == WithMonsterCleared(old(model), name, m)
    {
      var session := sessions[name];
      ghost var st' := WithMonsterCleared(model, name, m);
      session.ClearMonster(m);
      forall n | n in sessions && n != name
        ensures Abstracts(sessions[n], model[n])
      {
        assert sessions[n].Repr !! session.Repr;
      }
      CoherentReplace(sessions, model, Repr, name, st');
      model := st';
    }

    // ---- the session routes ----

    /** session_info: status 0 when the name is registered, 1 otherwise. */
    method SessionInfo(name: string) returns (r: Response)
      requires Valid()
      ensures r == SessionInfoAnswer(model, name)
      ensures r.status == OK <==> name in model
    {
      if name in sessions {
        return Done;
      }
      return SessionDoesNotExist;
    }

    /**
     * create_session: an existing name is rejected with status 2 and nothing
     * changes; a new name gets exactly one new entry, a fresh session.
     */
    method CreateSession(name: string) returns (r: Response)
      requires Valid()
      modifies this
      ensures Valid()
      ensures name in old(model) ==> r == SessionAlreadyExists && sessions == old(sessions) && model == old(model) && Repr == old(Repr)
      ensures name !in old(model) ==> r == Done && model == old(model)[name := FreshSession()]
      ensures forall n :: n in old(sessions) ==> n in sessions && sessions[n] == old(sessions[n])
      ensures fresh(Repr - old(Repr))
    {
      if name in sessions {
        return SessionAlreadyExists;
      }
      var session := new Session();
      Register(name, session);
      return Done;
    }

    /** Enter a new session under a new name; every other entry stays. */
    method Register(name: string, session: Session)
      requires Valid() && name !in model
      requires session.Valid() && session.Repr !! Repr && this !in session.Repr
      modifies this
      ensures Valid()
      ensures sessions == old(sessions)[name := session]
      ensures model == old(model)[name := session.View()]
      ensures Repr == old(Repr) + session.Repr
    {
      CoherentAdd(sessions, model, Repr, name, session);
      sessions := sessions[name := session];
      Repr := Repr + session.Repr;
      model := model[name := session.View()];
    }

    /**
     * delete_session: a missing name answers status 1 and nothing changes;
     * otherwise exactly that entry is removed.
     */
    method DeleteSession(name: string) returns (r: Response)
      requires Valid()
      modifies this
      ensures Valid()
      ensures name !in old(model) ==> r == SessionDoesNotExist && sessions == old(sessions) && model == old(model)
      ensures name in old(model) ==> r == Done && model == old(model) - {name}
      ensures Repr == old(Repr)
    {
      if name !in sessions {
        return SessionDoesNotExist;
      }
      CoherentRemove(sessions, model, Repr, name);
      sessions := sessions - {name};
      model := model - {name};
      return Done;
    }

    /** get_session: the whole session as `{monsters: [...]}`. */
    method GetSession(name: string) returns (r: Response)
      requires Valid()
      ensures r == SessionAnswer(model, name)
    {
      if name !in sessions {
        return SessionDoesNotExist;
      }
      return Ok(Structured(EncodeSession(sessions[name].View())));
    }

    // ---- the monster routes ----

    /** get_monster: the monster as `{parts: [...], ailments: [...]}`. */
    method GetMonster(name: string, m: int) returns (r: Response)
      requires Valid()
      ensures r == MonsterAnswer(model, name, m)
    {
      var rej := CheckMonster(name, m);
      if rej.Some? {
        return rej.value;
      }
      var mv := LoadMonster(name, m);
      return Ok(Structured(EncodeMonster(mv)));
    }

    /** clear_monster: that monster is reset; on a rejection nothing changes. */
    method ClearMonster(name: string, m: int) returns (r: Response)
      requires Valid()
      modifies this`model, Repr
      ensures Valid()
      ensures var rej := MonsterRejection(old(model), name, m);
        if rej.Some? then r == rej.value && model == old(model)
        else r == Done && model == WithMonsterCleared(old(model), name, m)
    {
      var rej := CheckMonster(name, m);
      if rej.Some? {
        return rej.value;
      }
      StoreCleared(name, m);
      return Done;
    }

    // ---- the part routes ----

    /** get_part: the part as `{current_hp, max_hp, times_broken}`. */
    method GetPart(name: string, m: int, p: int) returns (r: Response)
      requires Valid()
      ensures r == PartAnswer(model, name, m, p)
    {
      var rej := CheckPart(name, m, p);
      if rej.Some? {
        return rej.value;
      }
      var x := LoadPart(name, m, p);
      return Ok(Structured(EncodePart(x)));
    }

    method ReadPartField(name: string, m: int, p: int, f: PartField) returns (r: Response)
      requires Valid()
      ensures r == PartFieldAnswer(model, name, m, p, f)
    {
      var rej := CheckPart(name, m, p);
      if rej.Some? {
        return rej.value;
      }
      var x := LoadPart(name, m, p);
      return Ok(Text(Str(PartFieldOf(x, f))));
    }

    /** Rewrite one field of a part on a validated path; on a rejection nothing changes. */
    method WritePartField(name: string, m: int, p: int, f: PartField, v: int) returns (r: Response)
      requires Valid()
      modifies this`model, Repr
      ensures Valid()
      ensures var rej := PartRejection(old(model), name, m, p);
        if rej.Some? then r == rej.value && model == old(model)
        else r == Done && model == WithPart(old(model), name, m, p, SetPartField(PartAt(old(model), name, m, p), f, v))
    {
      var rej := CheckPart(name, m, p);
      if rej.Some? {
        return rej.value;
      }
      var x := LoadPart(name, m, p);
      StorePart(name, m, p, SetPartField(x, f, v));
      return Done;
    }

    /** get_current_part_hp: `str` of the part's current_hp. */
    method GetCurrentPartHp(name: string, m: int, p: int) returns (r: Response)
      requires Valid()
      ensures r == PartFieldAnswer(model, name, m, p, CurrentHp)
    {
      r := ReadPartField(name, m, p, CurrentHp);
    }

    /** set_current_part_hp: only current_hp of the addressed part changes. */
    method SetCurrentPartHp(name: string, m: int, p: int, value: int) returns (r: Response)
      requires Valid()
      modifies this`model, Repr
      ensures Valid()
      ensures var rej := PartRejection(old(model), name, m, p);
        if rej.Some? then r == rej.value && model == old(model)
        else r == Done && model == WithPart(old(model), name, m, p, PartAt(old(model), name, m, p).(current_hp := value))
    {
      r := WritePartField(name, m, p, CurrentHp, value);
    }

    /** get_max_part_hp: `str` of the part's max_hp. */
    method GetMaxPartHp(name: string, m: int, p: int) returns (r: Response)
      requires Valid()
      ensures r == PartFieldAnswer(model, name, m, p, MaxHp)
    {
      r := ReadPartField(name, m, p, MaxHp);
    }

    /** set_max_part_hp: only max_hp of the addressed part changes. */
    method SetMaxPartHp(name: string, m: int, p: int, value: int) returns (r: Response)
      requires Valid()
      modifies this`model, Repr
      ensures Valid()
      ensures var rej := PartRejection(old(model), name, m, p);
        if rej.Some? then r == rej.value && model == old(model)
        else r == Done && model == WithPart(old(model), name, m, p, PartAt(old(model), name, m, p).(max_hp := value))
    {
      r := WritePartField(name, m, p, MaxHp, value);
    }

    /** get_part_times_broken: `str` of the part's times_broken. */
    method GetPartTimesBroken(name: string, m: int, p: int) returns (r: Response)
      requires Valid()
      ensures r == PartFieldAnswer(model, name, m, p, TimesBroken)
    {
      r := ReadPartField(name, m, p, TimesBroken);
    }

    /** set_part_times_broken: only times_broken of the addressed part changes. */
    method SetPartTimesBroken(name: string, m: int, p: int, value: int) returns (r: Response)
      requires Valid()
      modifies this`model, Repr
      ensures Valid()
      ensures var rej := PartRejection(old(model), name, m, p);
        if rej.Some? then r == rej.value && model == old(model)
        else r == Done && model == WithPart(old(model), name, m, p, PartAt(old(model), name, m, p).(times_broken := value))
    {
      r := WritePartField(name, m, p, TimesBroken, value);
    }

    /** set_part: all three fields of the addressed part at once. */
    method SetPart(name: string, m: int, p: int, currentHp: int, maxHp: int, timesBroken: int) returns (r: Response)
      requires Valid()
      modifies this`model, Repr
      ensures Valid()
      ensures var rej := PartRejection(old(model), name, m, p);
        if rej.Some? then r == rej.value && model == old(model)
        else r == Done && model == WithPart(old(model), name, m, p, Part(currentHp, maxHp, timesBroken))
    {
      var rej := CheckPart(name, m, p);
      if rej.Some? {
        return rej.value;
      }
      StorePart(name, m, p, Part(currentHp, maxHp, timesBroken));
      return Done;
    }

    // ---- the ailment routes ----

    /** get_ailment: status 10 once validation passes (Ailment has no get_all). */
    method GetAilment(name: string, m: int, a: int) returns (r: Response)
      requires Valid()
      ensures r == AilmentAnswer(model, name, m, a)
    {
      var rej := CheckAilment(name, m, a);
      if rej.Some? {
        return rej.value;
      }
      return InternalFailure;
    }

    method ReadAilmentField(name: string, m: int, a: int, f: AilmentField) returns (r: Response)
      requires Valid()
      ensures r == AilmentFieldAnswer(model, name, m, a, f)
    {
      var rej := CheckAilment(name, m, a);
      if rej.Some? {
        return rej.value;
      }
      var x := LoadAilment(name, m, a);
      return Ok(Text(Str(AilmentFieldOf(x, f))));
    }

    /** Rewrite one field of an ailment on a validated path; on a rejection nothing changes. */
    method WriteAilmentField(name: string, m: int, a: int, f: AilmentField, v: int) returns (r: Response)
      requires Valid()
      modifies this`model, Repr
      ensures Valid()
      ensures var rej := AilmentRejection(old(model), name, m, a);
        if rej.Some? then r == rej.value && model == old(model)
        else r == Done && model == WithAilment(old(model), name, m, a, SetAilmentField(AilmentAt(old(model), name, m, a), f, v))
    {
      var rej := CheckAilment(name, m, a);
      if rej.Some? {
        return rej.value;
      }
      var x := LoadAilment(name, m, a);
      StoreAilment(name, m, a, SetAilmentField(x, f, v));
      return Done;
    }

    /** get_current_ailment_buildup: `str` of the ailment's current_buildup. */
    method GetCurrentAilmentBuildup(name: string, m: int, a: int) returns (r: Response)
      requires Valid()
      ensures r == AilmentFieldAnswer(model, name, m, a, CurrentBuildup)
    {
      r := ReadAilmentField(name, m, a, CurrentBuildup);
    }

    /** set_current_ailment_buildup: only current_buildup of the addressed ailment changes. */
    method SetCurrentAilmentBuildup(name: string, m: int, a: int, value: int) returns (r: Response)
      requires Valid()
      modifies this`model, Repr
      ensures Valid()
      ensures var rej := AilmentRejection(old(model), name, m, a);
        if rej.Some? then r == rej.value && model == old(model)
        else r == Done && model == WithAilment(old(model), name, m, a, AilmentAt(old(model), name, m, a).(current_buildup := value))
    {
      r := WriteAilmentField(name, m, a, CurrentBuildup, value);
    }

    /** get_max_ailment_buildup: `str` of the ailment's max_buildup. */
    method GetMaxAilmentBuildup(name: string, m: int, a: int) returns (r: Response)
      requires Valid()
      ensures r == AilmentFieldAnswer(model, name, m, a, MaxBuildup)
    {
      r := ReadAilmentField(name, m, a, MaxBuildup);
    }

    /** set_max_ailment_buildup: only max_buildup of the addressed ailment changes. */
    method SetMaxAilmentBuildup(name: string, m: int, a: int, value: int) returns (r: Response)
      requires Valid()
      modifies this`model, Repr
      ensures Valid()
      ensures var rej := AilmentRejection(old(model), name, m, a);
        if rej.Some? then r == rej.value && model == old(model)
        else r == Done && model == WithAilment(old(model), name, m, a, AilmentAt(old(model), name, m, a).(max_buildup := value))
    {
      r := WriteAilmentField(name, m, a, MaxBuildup, value);
    }

    /** set_ailment: both fields of the addressed ailment at once. */
    method SetAilment(name: string, m: int, a: int, current: int, max: int) returns (r: Response)
      requires Valid()
      modifies this`model, Repr
      ensures Valid()
      ensures var rej := AilmentRejection(old(model), name, m, a);
        if rej.Some? then r == rej.value && model == old(model)
        else r == Done && model == WithAilment(old(model), name, m, a, Ailment(current, max))
    {
      var rej := CheckAilment(name, m, a);
      if rej.Some? {
        return rej.value;
      }
      StoreAilment(name, m, a, Ailment(current, max));
      return Done;
    }
  }

  /**
   * A client's requests against a fresh process: create a session, write a
   * current_hp and read it back.
   */
  method WriteReadScenario() returns (written: Response, read: Response)
    ensures written == Done && read == Ok(Text("5"))
  {
    var registry := new Registry();
    var _ := registry.CreateSession("alice");
    ghost var st := registry.model;
    written := registry.SetCurrentPartHp("alice", 0, 7, 5);
    ReadAfterWritePartField(st, "alice", 0, 7, CurrentHp, 5);
    read := registry.GetCurrentPartHp("alice", 0, 7);
    assert Str(5) == "5";
  }

  /** Clearing a monster after a write: the written field reads "0" again. */
  method ClearScenario() returns (cleared: Response)
    ensures cleared == Ok(Text("0"))
  {
    var registry := new Registry();
    var _ := registry.CreateSession("alice");
    assert "alice" in registry.model;
    var _ := registry.SetPart("alice", 0, 7, 5, 9, 1);
    ghost var st := registry.model;
    assert "alice" in st;
    var _ := registry.ClearMonster("alice", 0);
    ReadAfterClear(st, "alice", 0, 7, CurrentHp, CurrentBuildup);
    cleared := registry.GetCurrentPartHp("alice", 0, 7);
  }

  /**
   * A client asks for a fourth monster, deletes its session and asks for
   * the session again.
   */
  method RejectionScenario() returns (noMonster: Response, deleted: Response, gone: Response)
    ensures noMonster == MonsterOutsideRange && deleted == Done && gone == SessionDoesNotExist
  {
    var registry := new Registry();
    var _ := registry.CreateSession("alice");
    noMonster := registry.GetPart("alice", 3, 0);
    deleted := registry.DeleteSession("alice");
    gone := registry.SessionInfo("alice");
  }

  /** After a delete, a write under that name is rejected with status 1 and changes nothing. */
  method DeleteThenWriteScenario() returns (deleted: Response, written: Response)
    ensures deleted == Done && written == SessionDoesNotExist
  {
    var registry := new Registry();
    var _ := registry.CreateSession("alice");
    assert "alice" in registry.model;
    deleted := registry.DeleteSession("alice");
    ghost var st := registry.model;
    assert "alice" !in st;
    written := registry.SetPart("alice", 0, 7, 5, 5, 0);
    assert registry.model == st;
  }
}
