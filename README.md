# Monster Hunter World session tracker — a verified model

`mhwsync.py` is a small HTTP service. Several game clients use it to share
the state of the monsters they are hunting. A client creates a named
**session**. A session holds exactly three **monsters**. Each monster holds
`bufferSize` (50) **parts** and 50 **ailments**, and every field of these
records starts at 0. About twenty routes read or write these records.

create_session is the one route that checks the opposite way: it rejects a
name that is already registered with status 2. The other session routes
(session_info, delete_session, get_session) only check that the session
exists, otherwise status 1. Every monster, part and ailment route runs the
same checks in a fixed order:

1. the session must exist, otherwise status 1;
2. the monster index must be in `range(3)`, otherwise status 3;
3. the part or ailment index must be in `range(bufferSize)`, otherwise 4 or 5.

A route that passes its checks does one of these:
- reads or writes one field, or all fields, of one part or ailment;
- reads or clears one whole monster;
- reads one whole session (get_session).

get_ailment reads nothing: it faults, as described below.

The project has five modules:

- `Wrappers` (`wrappers.dfy`): an `Option` type.
- `Model` (`model.dfy`):
  - `Part` and `Ailment` as records;
  - value views of a monster, a session and the whole registry (`State`, a
    map from session name to session);
  - pure update functions. These describe what a write does to the
    registry, and their contracts state the frame: what else stays the same.
- `Encoding` (`encoding.dfy`):
  - `CustomEncoder.default` as a structural view: a `Json` tree with the
    same keys, in the same order, and lists in index order;
  - a decoder for every encoder, with round-trip lemmas;
  - Python's `str(int)` as `Str`, and `ParseInt` to read it back.
- `Protocol` (`protocol.dfy`):
  - the status codes and messages of the `Status` dictionaries;
  - the validation sequence, as rejection functions;
  - the answer every read route gives for a given registry value;
  - lemmas about set-then-get, clear-then-get and missing sessions.
- `Tracker` (`tracker.dfy`): the mutable objects.
  - `Monster`, whose `parts` and `ailments` lists are built by appending and
    then overwritten in place;
  - `Session`, which owns three monsters;
  - `Registry`, the module-level `sessions` dictionary. It has one method
    per route.

  Every Registry method is proved against the value in its ghost field
  `model`. In detail:
  - read routes return exactly `Protocol`'s answer;
  - write routes return the first rejection and change nothing, or return
    status 0 and leave `model` equal to the `Model` update function;
  - `Valid()` is kept throughout. It says the objects' contents are the
    `model` value, and no two sessions share a monster.

Where a Python object's attribute is assigned in place
(`parts[p].current_hp = value`), the model stores the record with that one
field replaced. Nothing else holds a reference to a `Part`, so nothing can
observe the difference.

get_ailment (mhwsync.py:302-312) calls `.get_all()` on an `Ailment`, and
`Ailment` has no such method. Every request that passes validation
therefore raises. `handle_exception` turns the fault into a status-10
answer. The model states exactly this behaviour: status 10 on every valid
path. It does not invent an ailment serialisation.

## Model

| member | source | states |
|---|---|---|
| Model.FreshMonster | mhwsync.py:84-89 | a new monster has exactly 50 parts and 50 ailments, and every field of each is 0 |
| Model.FreshSession | mhwsync.py:97-99 | a new session has exactly 3 monsters, each with exactly 50 parts and 50 ailments, and every field is 0 |
| Model.WithPart | mhwsync.py:294-296 | after a part write, the addressed part reads the written record. Every other part of that monster keeps its value, and so do its ailments, the other two monsters, every other session, the key set and the shapes |
| Model.WithAilment | mhwsync.py:377-378 | after an ailment write, the addressed ailment reads the written record. Every other ailment, the parts, the other monsters, every other session and the key set are unchanged |
| Model.WithMonsterCleared | mhwsync.py:91-94 | after a clear, every part and ailment of the monster is all-zero, and both lists still have length 50. The other two monsters and every other session are unchanged |
| Model.ClearIdempotent | mhwsync.py:91-94 | clearing a monster twice gives the same registry as clearing it once |
| Model.WithPartUnchanged | mhwsync.py:285-299 | writing back the part that is already stored leaves the registry equal to what it was |
| Model.WithAilmentUnchanged | mhwsync.py:368-380 | writing back the ailment that is already stored leaves the registry equal to what it was |
| Encoding.EncodePart | mhwsync.py:104-105 | a part serialises as an object with exactly three keys; `current_hp`, `max_hp` and `times_broken` hold the part's three values |
| Encoding.EncodeAilment | mhwsync.py:106-107 | an ailment serialises as an object with exactly two keys; `current_buildup` and `max_buildup` hold its two values |
| Encoding.EncodeMonster | mhwsync.py:108-109 | a monster serialises as an object with exactly two keys; `parts` and `ailments` hold the encoded lists |
| Encoding.EncodeSession | mhwsync.py:110-111 | a session serialises as an object with the single key `monsters`, holding the encoded list of monsters |
| Encoding.DecodeEncodePart | mhwsync.py:104-105 | a part serialises as `{current_hp, max_hp, times_broken}`, and decoding gives the part back |
| Encoding.DecodeEncodeAilment | mhwsync.py:106-107 | an ailment serialises as `{current_buildup, max_buildup}`, and decoding gives the ailment back |
| Encoding.EncodeParts | mhwsync.py:109 | the encoded `parts` list has one entry per part, and entry i is the encoding of part i |
| Encoding.EncodeAilments | mhwsync.py:109 | the encoded `ailments` list has one entry per ailment, and entry i is the encoding of ailment i |
| Encoding.DecodeEncodeParts | mhwsync.py:109 | decoding the encoded list of parts gives the same list, in the same order |
| Encoding.DecodeEncodeAilments | mhwsync.py:109 | decoding the encoded list of ailments gives the same list, in the same order |
| Encoding.DecodeEncodeMonster | mhwsync.py:108-109 | a monster serialises as `{parts, ailments}`, and decoding gives the monster back |
| Encoding.EncodeMonsters | mhwsync.py:111 | the encoded `monsters` list has one entry per monster, in index order |
| Encoding.DecodeEncodeMonsters | mhwsync.py:111 | decoding the encoded list of monsters gives the same list, in the same order |
| Encoding.DecodeEncodeSession | mhwsync.py:110-111 | a session serialises as `{monsters}`, and decoding gives the session back |
| Encoding.EncodeSessionInjective | mhwsync.py:164 | two sessions with the same get_session payload are equal, so nothing is lost |
| Encoding.NatDigits | mhwsync.py:213 | `str` of a natural number is a non-empty string of decimal digits, and it has no leading zero unless the number is 0 |
| Encoding.DigitsValueNatDigits | mhwsync.py:213 | the digits `str` produces denote the number |
| Encoding.ParseIntStr | mhwsync.py:213 | the text of every scalar read parses back to exactly the stored integer, negatives included |
| Encoding.StrInjective | mhwsync.py:213 | distinct values give distinct texts |
| Encoding.Str | mhwsync.py:213 | `str(n)` is canonical text: '-' exactly for negatives, then decimal digits, with no leading zero and no "-0" |
| Protocol.SessionRejection | mhwsync.py:161-162 | a request is rejected exactly when the name is not registered, and the rejection is status 1 |
| Protocol.MonsterRejection | mhwsync.py:170-173 | a request passes exactly when the session exists and 0 <= index < 3. A missing session gives status 1, otherwise a bad index gives status 3 |
| Protocol.PartRejection | mhwsync.py:193-198 | a request passes exactly when the slot is addressable. The first failing check decides the answer: 1, then 3, then 4 |
| Protocol.AilmentRejection | mhwsync.py:304-309 | a request passes exactly when the slot is addressable. The first failing check decides the answer: 1, then 3, then 5 |
| Protocol.RejectionPrecedence | mhwsync.py:219-224 | a missing session gives 1 whatever the indices. An out-of-range monster gives 3 whatever the part or ailment index. A part route can only fail with 1, 3 or 4, and an ailment route with 1, 3 or 5 |
| Protocol.SessionInfoAnswer | mhwsync.py:131-136 | status 0 with "" exactly when the name is registered, otherwise status 1 |
| Protocol.SessionAnswer | mhwsync.py:159-165 | status 0 exactly when the name is registered, and then the payload decodes back to that session. Otherwise status 1 |
| Protocol.MonsterAnswer | mhwsync.py:168-176 | status 0 exactly when the monster is addressable, and then the payload decodes back to that monster. Otherwise the first rejection (1 or 3) |
| Protocol.PartAnswer | mhwsync.py:191-201 | status 0 exactly when the part is addressable, and then the payload decodes back to that part. Otherwise the first rejection (1, 3 or 4) |
| Protocol.PartFieldAnswer | mhwsync.py:204-214 | status 0 exactly when the part is addressable, and then the text parses back to the chosen field's value. Otherwise the first rejection (1, 3 or 4) |
| Protocol.AilmentAnswer | mhwsync.py:302-312 | never status 0. Status 10 exactly when the ailment is addressable, otherwise the first rejection (1, 3 or 5) |
| Protocol.AilmentFieldAnswer | mhwsync.py:314-324 | status 0 exactly when the ailment is addressable, and then the text parses back to the chosen field's value. Otherwise the first rejection (1, 3 or 5) |
| Protocol.SetPartField | mhwsync.py:226 | assigning one part field sets exactly that field, and the other two keep their values |
| Protocol.SetAilmentField | mhwsync.py:336 | assigning one ailment field sets exactly that field, and the other keeps its value |
| Protocol.MissingSessionReads | mhwsync.py:170-171 | under a name that is not registered, every read route answers `session does not exist` (status 1). This covers every read after a delete |
| Protocol.AilmentAnswerFaults | mhwsync.py:311 | get_ailment answers status 10 on every path that passes validation |
| Protocol.ReadAfterWritePart | mhwsync.py:285-299 | after set_all on a part, get_part answers the written record as `{current_hp, max_hp, times_broken}`. Each scalar read answers `str` of the written value, and that text parses back to it |
| Protocol.ReadAfterWritePartField | mhwsync.py:217-228 | after a single-field part setter, reading that field gives `str` of the new value, and reading the other two fields gives what it gave before |
| Protocol.ReadAfterWriteAilmentField | mhwsync.py:327-338 | after a single-field ailment setter, reading that field gives `str` of the new value, and reading the other field gives what it gave before |
| Protocol.ReadAfterWriteAilment | mhwsync.py:368-380 | after set_all on an ailment, both scalar reads answer `str` of the written values, and the texts parse back to them |
| Protocol.ReadAfterClear | mhwsync.py:179-188 | after clear_monster, every scalar read of that monster answers "0" |
| Tracker.Monster.constructor | mhwsync.py:84-89 | a new monster holds 50 default parts and 50 default ailments |
| Tracker.Monster.Clear | mhwsync.py:91-94 | after clear, the monster is the fresh monster again: 50 zero parts and 50 zero ailments |
| Tracker.Monster.StorePart | mhwsync.py:226 | only part slot p changes, and the lengths stay 50 |
| Tracker.Monster.StoreAilment | mhwsync.py:336 | only ailment slot a changes, and the lengths stay 50 |
| Tracker.Session.constructor | mhwsync.py:97-99 | a new session holds three distinct fresh monsters |
| Tracker.Session.StorePart | mhwsync.py:226 | only part p of monster m changes, and the other monsters keep their contents |
| Tracker.Session.StoreAilment | mhwsync.py:336 | only ailment a of monster m changes, and the other monsters keep their contents |
| Tracker.Session.ClearMonster | mhwsync.py:186 | monster m is reset, and the other two keep their contents |
| Tracker.Registry.constructor | mhwsync.py:116 | the process starts with no sessions |
| Tracker.Registry.CheckMonster | mhwsync.py:170-173 | the session and monster checks, in order, give exactly the rejection `MonsterRejection` describes |
| Tracker.Registry.CheckPart | mhwsync.py:193-198 | the three part checks, in order, give exactly `PartRejection` |
| Tracker.Registry.CheckAilment | mhwsync.py:304-309 | the three ailment checks, in order, give exactly `AilmentRejection` |
| Tracker.Registry.StorePart | mhwsync.py:294-296 | the registry's new value is `WithPart` of the old one, and the invariant is kept |
| Tracker.Registry.StoreAilment | mhwsync.py:377-378 | the registry's new value is `WithAilment` of the old one, and the invariant is kept |
| Tracker.Registry.StoreCleared | mhwsync.py:186 | the registry's new value is `WithMonsterCleared` of the old one, and the invariant is kept |
| Tracker.Registry.SessionInfo | mhwsync.py:131-136 | the answer is status 0 exactly when the name is registered, otherwise status 1 |
| Tracker.Registry.CreateSession | mhwsync.py:139-146 | a name already present gives status 2, and the dictionary (existing session included) and its value stay unchanged. A new name adds exactly that key, bound to a fresh session, and every old entry keeps its object |
| Tracker.Registry.Register | mhwsync.py:144 | the dictionary gains exactly the one new entry, and the invariant is kept |
| Tracker.Registry.DeleteSession | mhwsync.py:149-156 | a missing name gives status 1 and nothing changes. Otherwise exactly that key is removed. The other sessions and their monsters are untouched either way, so every route stays callable afterwards |
| Tracker.Registry.GetSession | mhwsync.py:159-165 | the answer is status 1, or status 0 with the session's `{monsters}` serialisation |
| Tracker.Registry.GetMonster | mhwsync.py:168-176 | the answer is the first rejection, or status 0 with the monster's `{parts, ailments}` serialisation |
| Tracker.Registry.ClearMonster | mhwsync.py:179-188 | a rejected request changes nothing. Otherwise status 0, and the new value is exactly the old one with that monster cleared |
| Tracker.Registry.GetPart | mhwsync.py:191-201 | the answer is the first rejection, or status 0 with the part's `{current_hp, max_hp, times_broken}` serialisation |
| Tracker.Registry.ReadPartField | mhwsync.py:204-214 | the answer is the first rejection, or status 0 with `str` of the chosen field |
| Tracker.Registry.WritePartField | mhwsync.py:217-228 | a rejected request changes nothing. Otherwise status 0, and exactly the chosen field of the addressed part changes |
| Tracker.Registry.GetCurrentPartHp | mhwsync.py:204-214 | the answer is the first rejection, or `str` of current_hp |
| Tracker.Registry.SetCurrentPartHp | mhwsync.py:217-228 | a rejected request changes nothing. Otherwise only current_hp of the addressed part becomes `value` |
| Tracker.Registry.GetMaxPartHp | mhwsync.py:231-241 | the answer is the first rejection, or `str` of max_hp |
| Tracker.Registry.SetMaxPartHp | mhwsync.py:244-255 | a rejected request changes nothing. Otherwise only max_hp of the addressed part becomes `value` |
| Tracker.Registry.GetPartTimesBroken | mhwsync.py:258-268 | the answer is the first rejection, or `str` of times_broken |
| Tracker.Registry.SetPartTimesBroken | mhwsync.py:271-282 | a rejected request changes nothing. Otherwise only times_broken of the addressed part becomes `value` |
| Tracker.Registry.SetPart | mhwsync.py:285-299 | a rejected request changes nothing. Otherwise the addressed part becomes exactly the three given values |
| Tracker.Registry.GetAilment | mhwsync.py:302-312 | the answer is the first rejection (1, 3 or 5), otherwise status 10 |
| Tracker.Registry.ReadAilmentField | mhwsync.py:314-324 | the answer is the first rejection, or status 0 with `str` of the chosen field |
| Tracker.Registry.WriteAilmentField | mhwsync.py:327-338 | a rejected request changes nothing. Otherwise exactly the chosen field of the addressed ailment changes |
| Tracker.Registry.GetCurrentAilmentBuildup | mhwsync.py:314-324 | the answer is the first rejection, or `str` of current_buildup |
| Tracker.Registry.SetCurrentAilmentBuildup | mhwsync.py:327-338 | a rejected request changes nothing. Otherwise only current_buildup of the addressed ailment becomes `value` |
| Tracker.Registry.GetMaxAilmentBuildup | mhwsync.py:341-351 | the answer is the first rejection, or `str` of max_buildup |
| Tracker.Registry.SetMaxAilmentBuildup | mhwsync.py:354-365 | a rejected request changes nothing. Otherwise only max_buildup of the addressed ailment becomes `value` |
| Tracker.Registry.SetAilment | mhwsync.py:368-380 | a rejected request changes nothing. Otherwise the addressed ailment becomes exactly the two given values |
| Tracker.WriteReadScenario | mhwsync.py:204-228 | on a fresh process: create "alice", set current_hp of part 7 of monster 0 to 5, then read the field back. The write answers status 0 with "", and the read answers status 0 with "5" |
| Tracker.ClearScenario | mhwsync.py:179-188 | after set_all and then clear_monster, current_hp of that part reads "0" |
| Tracker.DeleteThenWriteScenario | mhwsync.py:149-156 | after delete_session, set_part under the deleted name answers status 1 and changes nothing |
| Tracker.RejectionScenario | mhwsync.py:149-176 | monster index 3 answers status 3. Deleting the session answers status 0, and session_info then answers status 1 |

## Left out

- Flask setup, the route decorators, URL parsing and the `int` path
  converter are not modelled. The handlers take their arguments directly,
  as unbounded integers. Flask's converter admits only non-negative numbers;
  the model instead handles every integer, negative indices and values
  included.
- Atatus telemetry, the environment-variable configuration and the Python
  version guard are process setup outside the tracker.
- The `/` and `/version` routes are constant answers outside the session
  tracker.
- The text `json.dumps` produces comes from a library. A structured read
  answers a `Json` tree with the same keys, key order and list order
  instead of a string.
- The 404 handler is not modelled.
- `handle_exception` builds a diagnostic text from `repr(e)` and the request
  path, and logs the exception through `app.log_exception`. The model
  answers status 10 with an opaque `Diagnostic` value and does no logging.
- The handlers reuse one mutable `Status.ok` dictionary for every success
  answer, and every success path overwrites its `value` before returning.
  Rejections return the separate, never-modified `Status.*` dictionaries. The model
  returns a fresh response value each time, so it does not capture what a
  concurrent request would see.
- Concurrency between request workers is not modelled; the model is
  sequential.
- Tracker.Registry.GetSession, Tracker.Registry.GetMonster,
  Tracker.Registry.GetPart: these answer a `Json` tree, not the JSON text
  the source returns, for the library reason above.
