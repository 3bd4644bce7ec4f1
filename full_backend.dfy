/** The full backend (backend/app1.py): a process-wide list of reservations that
    POST normalises and appends to, GET searches, PUT edits in place over a fixed
    set of keys, and DELETE filters. Saving the list to disk after a change is
    not modelled: the list a handler leaves behind is what gets saved. */
module FullBackend {
  import opened Maybe
  import opened Json
  import opened Records

  /** The flat contact and ID keys that POST folds into nested objects. */
  const FlatKeys: set<string> := {"phone", "email", "valid_id_type", "valid_id_number"}

  /** The keys POST sets on every record it creates. */
  const StampedKeys: set<string> :=
    {"id", "contact", "valid_id", "guests", "resort_id", "created_at", "updated_at"}

  /** The keys PUT copies from the request when present, else from the record
      (`data.get(k, res[k])`). */
  const CarriedKeys: set<string> :=
    {"guest_name", "street_address", "municipality", "region", "country", "valid_id"}

  /** The keys PUT reads with `res[k]`: a record without one of them makes PUT raise. */
  const RequiredForEdit: set<string> := CarriedKeys + {"guests"}

  /** The keys PUT writes. */
  const EditedKeys: set<string> := CarriedKeys + {"resort_name", "guests", "updated_at"}

  /** The id POST gives a new record: `len(reservations) + 1`. It is above
      every id while the ids are exactly 1, 2, ..., n, as they are before any
      delete; after a delete it need not be (`CountIdRepeatsAfterDelete`). */
  function CountId(rs: seq<Record>): (n: int)
    ensures n >= 1
    ensures (forall i :: 0 <= i < |rs| ==> "id" in rs[i] && rs[i]["id"] == Num(i + 1)) ==>
      forall i :: 0 <= i < |rs| ==> IdOf(rs[i]) < n
  {
    |rs| + 1
  }

  /** The nested `contact` object POST builds from the flat keys. */
  function ContactOf(body: Record): Value
  {
    Obj(map["phone" := GetOr(body, "phone", Str("")), "email" := GetOr(body, "email", Str(""))])
  }

  /** The nested `valid_id` object POST builds from the flat keys. */
  function ValidIdOf(body: Record): Value
  {
    Obj(map["type" := GetOr(body, "valid_id_type", Str("")), "number" := GetOr(body, "valid_id_number", Str(""))])
  }

  /** The value POST gives stamped key `k`. */
  function Stamp(body: Record, k: string, id: int, guests: int, now: string): Value
  {
    if k == "id" then Num(id)
    else if k == "contact" then ContactOf(body)
    else if k == "valid_id" then ValidIdOf(body)
    else if k == "guests" then Num(guests)
    else if k == "resort_id" then GetOr(body, "resort_id", Num(1))
    else Str(now)
  }

  /** The record POST stores for request body `body`, once `id` is allocated,
      `guests` converted and the clock read as `now`. */
  function Created(body: Record, id: int, guests: int, now: string): (r: Record)
    ensures r.Keys == (body.Keys - FlatKeys) + StampedKeys
    ensures r["id"] == Num(id)
    ensures r["contact"] == Obj(map["phone" := GetOr(body, "phone", Str("")), "email" := GetOr(body, "email", Str(""))])
    ensures r["valid_id"] == Obj(map["type" := GetOr(body, "valid_id_type", Str("")),
                                     "number" := GetOr(body, "valid_id_number", Str(""))])
    ensures r["guests"] == Num(guests)
    ensures r["resort_id"] == GetOr(body, "resort_id", Num(1))
    ensures r["created_at"] == r["updated_at"] == Str(now)
    ensures forall k :: k in body && k !in FlatKeys && k !in StampedKeys ==> r[k] == body[k]
  {
    map k | k in (body.Keys - FlatKeys) + StampedKeys ::
      if k in StampedKeys then Stamp(body, k, id, guests, now) else body[k]
  }

  /** The value PUT writes under edited key `k`, with `g` the converted guests. */
  function EditValue(res: Record, data: Record, k: string, g: int, now: string): Value
    requires RequiredForEdit <= res.Keys
  {
    if k == "resort_name" then GetOr(data, k, GetOr(res, k, Null))
    else if k == "guests" then Num(g)
    else if k == "updated_at" then Str(now)
    else if k in CarriedKeys then GetOr(data, k, res[k])
    else Null
  }

  /** The record PUT makes of stored record `res` and request body `data`, or None
      when building it raises: a KeyError for a missing key of `RequiredForEdit`,
      or `int()` failing on the guests value. */
  function Edited(res: Record, data: Record, now: string, parseText: string -> Option<int>): (e: Option<Record>)
    ensures e.None? <==>
      !(RequiredForEdit <= res.Keys) || PyIntCall(GetOr(data, "guests", res["guests"]), parseText).None?
    ensures e.Some? ==> e.value.Keys == res.Keys + EditedKeys
    ensures e.Some? ==> forall k :: k in CarriedKeys ==> e.value[k] == GetOr(data, k, res[k])
    ensures e.Some? ==> e.value["resort_name"] == GetOr(data, "resort_name", GetOr(res, "resort_name", Null))
    ensures e.Some? ==> e.value["guests"] == Num(PyIntCall(GetOr(data, "guests", res["guests"]), parseText).value)
    ensures e.Some? ==> e.value["updated_at"] == Str(now)
    ensures e.Some? ==> forall k :: k in res && k !in EditedKeys ==> e.value[k] == res[k]
  {
    if !(RequiredForEdit <= res.Keys) then None
    else
      match PyIntCall(GetOr(data, "guests", res["guests"]), parseText)
      case None => None
      case Some(g) =>
        Some(map k | k in res.Keys + EditedKeys ::
          if k in EditedKeys then EditValue(res, data, k, g, now) else res[k])
  }

  /** A PUT whose body only repeats values the record already has changes
      nothing but `updated_at`. */
  lemma EditWithNoChangesOnlyStamps(res: Record, data: Record, now: string, parseText: string -> Option<int>)
    requires RequiredForEdit + {"resort_name", "updated_at"} <= res.Keys
    requires res["guests"].Num?
    requires forall k :: k in data ==> k in res && data[k] == res[k]
    ensures Edited(res, data, now, parseText) == Some(res["updated_at" := Str(now)])
  {
    var e := Edited(res, data, now, parseText);
    assert e.Some?;
    var want := res["updated_at" := Str(now)];
    assert e.value.Keys == want.Keys;
    forall k | k in want ensures e.value[k] == want[k] {
      if k in CarriedKeys {
        assert e.value[k] == GetOr(data, k, res[k]);
      } else if k == "guests" {
        assert e.value[k] == Num(res["guests"].n);
      }
    }
    assert e.value == want;
  }

  /** A record stored without `resort_name` gains `"resort_name": null` from
      any PUT whose body does not set it, since the value written is
      `res.get("resort_name")`. */
  lemma EditAddsNullResortName(res: Record, data: Record, now: string, parseText: string -> Option<int>)
    requires RequiredForEdit <= res.Keys && "resort_name" !in res && "resort_name" !in data
    requires PyIntCall(GetOr(data, "guests", res["guests"]), parseText).Some?
    ensures Edited(res, data, now, parseText).Some?
    ensures Edited(res, data, now, parseText).value.Keys == res.Keys + EditedKeys
    ensures Edited(res, data, now, parseText).value["resort_name"] == Null
  {
  }

  /** Ids are numeric and pairwise different. */
  predicate DistinctIds(rs: seq<Record>)
  {
    NumericIds(rs) && forall i, j :: 0 <= i < j < |rs| ==> IdOf(rs[i]) != IdOf(rs[j])
  }

  /** As written, POST can reuse an id: with ids [1, 2], deleting 1 leaves one
      record, so the next id is 2, which the remaining record already has. */
  lemma CountIdRepeatsAfterDelete(body: Record, guests: int, now: string)
    ensures var rs := [map["id" := Num(1)], map["id" := Num(2)]];
      && DistinctIds(rs)
      && Delete(rs, 1) == Remaining([rs[1]])
      && CountId([rs[1]]) == 2
      && !DistinctIds([rs[1]] + [Created(body, CountId([rs[1]]), guests, now)])
  {
    var rs: seq<Record> := [map["id" := Num(1)], map["id" := Num(2)]];
    assert IdIs(rs[0], 1) && !IdIs(rs[1], 1);
    assert Without(rs, 1) == [rs[1]] by {
      assert rs[1..][1..] == [];
    }
    var after := [rs[1]] + [Created(body, CountId([rs[1]]), guests, now)];
    assert IdOf(after[0]) == IdOf(after[1]);
  }

  /** The largest id in the list, 0 for an empty list. */
  function MaxId(rs: seq<Record>): (m: int)
    requires NumericIds(rs)
    ensures forall i :: 0 <= i < |rs| ==> IdOf(rs[i]) <= m
    ensures rs == [] ==> m == 0
    ensures rs != [] ==> exists i :: 0 <= i < |rs| && IdOf(rs[i]) == m
  {
    if rs == [] then 0
    else if |rs| == 1 then IdOf(rs[0])
    else
      var rest := MaxId(rs[1..]);
      assert forall i :: 1 <= i < |rs| ==> IdOf(rs[i]) == IdOf(rs[1..][i - 1]);
      assert exists i :: 0 <= i < |rs| && IdOf(rs[i]) == rest by {
        var j :| 0 <= j < |rs[1..]| && IdOf(rs[1..][j]) == rest;
        assert rs[j + 1] == rs[1..][j];
      }
      if IdOf(rs[0]) > rest then IdOf(rs[0]) else rest
  }

  /** Corrected allocation: one more than the largest id (1 for an empty
      list), so never an id in use. */
  function NextFreeId(rs: seq<Record>): (n: int)
    requires NumericIds(rs)
    ensures forall i :: 0 <= i < |rs| ==> IdOf(rs[i]) < n
    ensures rs == [] ==> n == 1
    ensures rs != [] ==> exists i :: 0 <= i < |rs| && IdOf(rs[i]) == n - 1
  {
    MaxId(rs) + 1
  }

  /** With the corrected allocation, creating keeps ids distinct ... */
  lemma NextFreeIdKeepsDistinct(rs: seq<Record>, body: Record, guests: int, now: string)
    requires DistinctIds(rs)
    ensures DistinctIds(rs + [Created(body, NextFreeId(rs), guests, now)])
  {
    var r := Created(body, NextFreeId(rs), guests, now);
    var after := rs + [r];
    forall i, j | 0 <= i < j < |after| ensures IdOf(after[i]) != IdOf(after[j]) {
      if j == |rs| {
        assert IdOf(after[i]) < NextFreeId(rs);
      }
    }
  }

  /** Dropping the first record keeps ids distinct, and the first id is not
      among the others. */
  lemma DistinctTail(rs: seq<Record>)
    requires DistinctIds(rs) && rs != []
    ensures DistinctIds(rs[1..])
    ensures forall i :: 0 <= i < |rs[1..]| ==> IdOf(rs[1..][i]) != IdOf(rs[0])
  {
    var tail := rs[1..];
    forall i | 0 <= i < |tail| ensures "id" in tail[i] && AsPyInt(tail[i]["id"]).Some? {
      assert tail[i] == rs[i + 1];
    }
    forall i, j | 0 <= i < j < |tail| ensures IdOf(tail[i]) != IdOf(tail[j]) {
      assert tail[i] == rs[i + 1] && tail[j] == rs[j + 1];
    }
    forall i | 0 <= i < |tail| ensures IdOf(tail[i]) != IdOf(rs[0]) {
      assert tail[i] == rs[i + 1];
    }
  }

  /** Putting a record in front of distinct ids keeps them distinct when its
      id is not the id of any record in `pool`, and `pool` holds them all. */
  lemma DistinctCons(r: Record, rest: seq<Record>, pool: seq<Record>)
    requires DistinctIds(rest) && "id" in r && AsPyInt(r["id"]).Some?
    requires NumericIds(pool) && forall i :: 0 <= i < |pool| ==> IdOf(pool[i]) != IdOf(r)
    requires forall x :: x in rest ==> x in pool
    ensures DistinctIds([r] + rest)
  {
    var all := [r] + rest;
    forall i | 0 <= i < |all| ensures "id" in all[i] && AsPyInt(all[i]["id"]).Some? {
      if i > 0 { assert all[i] == rest[i - 1]; }
    }
    forall i, j | 0 <= i < j < |all| ensures IdOf(all[i]) != IdOf(all[j]) {
      assert all[j] == rest[j - 1] && rest[j - 1] in pool;
      if i > 0 { assert all[i] == rest[i - 1]; }
    }
  }

  /** ... and so does deleting, so distinct ids survive any sequence of both. */
  lemma {:induction false} WithoutKeepsDistinct(rs: seq<Record>, id: int)
    requires DistinctIds(rs)
    ensures DistinctIds(Without(rs, id))
  {
    if rs != [] {
      var tail := rs[1..];
      DistinctTail(rs);
      WithoutKeepsDistinct(tail, id);
      if !IdIs(rs[0], id) {
        assert Without(rs, id) == [rs[0]] + Without(tail, id);
        DistinctCons(rs[0], Without(tail, id), tail);
      }
    }
  }

  /** The record POST builds from the folded record `folded` by setting
      `guests`, the `resort_id` default and the two time stamps. */
  function Stamped(folded: Record, guests: int, now: string): (s: Record)
    ensures s.Keys == folded.Keys + {"guests", "resort_id", "created_at", "updated_at"}
    ensures s["guests"] == Num(guests) && s["resort_id"] == GetOr(folded, "resort_id", Num(1))
    ensures s["created_at"] == Str(now) && s["updated_at"] == Str(now)
    ensures forall k :: k in folded && k !in {"guests", "resort_id", "created_at", "updated_at"} ==> s[k] == folded[k]
  {
    var withGuests := folded["guests" := Num(guests)];
    var withResort := withGuests["resort_id" := GetOr(withGuests, "resort_id", Num(1))];
    withResort["created_at" := Str(now)]["updated_at" := Str(now)]
  }

  /** The folded record: the request body with `id` set, the flat contact and
      ID keys removed and the two nested objects added. */
  predicate FoldedFrom(folded: Record, body: Record, id: int)
  {
    && folded.Keys == (body.Keys - FlatKeys) + {"id", "contact", "valid_id"}
    && folded["id"] == Num(id) && folded["contact"] == ContactOf(body) && folded["valid_id"] == ValidIdOf(body)
    && forall k :: k in folded && k !in {"id", "contact", "valid_id"} ==> folded[k] == body[k]
  }

  lemma StampedNested(body: Record, folded: Record, id: int, guests: int, now: string)
    requires FoldedFrom(folded, body, id)
    ensures var data, want := Stamped(folded, guests, now), Created(body, id, guests, now);
      data["id"] == want["id"] && data["contact"] == want["contact"] && data["valid_id"] == want["valid_id"]
  {
  }

  lemma StampedResort(body: Record, folded: Record, id: int, guests: int, now: string)
    requires FoldedFrom(folded, body, id)
    ensures var data, want := Stamped(folded, guests, now), Created(body, id, guests, now);
      data["resort_id"] == want["resort_id"]
  {
  }

  lemma StampedTimes(body: Record, folded: Record, id: int, guests: int, now: string)
    requires FoldedFrom(folded, body, id)
    ensures var data, want := Stamped(folded, guests, now), Created(body, id, guests, now);
      data["guests"] == want["guests"] && data["created_at"] == want["created_at"] && data["updated_at"] == want["updated_at"]
  {
  }

  lemma StampedCopies(body: Record, folded: Record, id: int, guests: int, now: string)
    requires FoldedFrom(folded, body, id)
    ensures var data, want := Stamped(folded, guests, now), Created(body, id, guests, now);
      forall k :: k in data && k !in StampedKeys ==> data[k] == want[k]
  {
    var data, want := Stamped(folded, guests, now), Created(body, id, guests, now);
    forall k | k in data && k !in StampedKeys ensures data[k] == want[k] {
      assert data[k] == folded[k];
    }
  }

  /** Once the flat keys are folded, setting `guests`, the `resort_id` default
      and the two time stamps gives exactly the created record. */
  lemma StampingCompletesCreated(body: Record, folded: Record, id: int, guests: int, now: string)
    requires FoldedFrom(folded, body, id)
    ensures Stamped(folded, guests, now) == Created(body, id, guests, now)
  {
    var data, want := Stamped(folded, guests, now), Created(body, id, guests, now);
    StampedKeysMatch(body, folded, data);
    StampedNested(body, folded, id, guests, now);
    StampedResort(body, folded, id, guests, now);
    StampedTimes(body, folded, id, guests, now);
    StampedCopies(body, folded, id, guests, now);
    assert want.Keys == (body.Keys - FlatKeys) + StampedKeys;
    AgreeOnStampedKeys(data, want);
  }

  /** Two records with the same keys, including the stamped ones, are equal
      when they agree on each stamped key and on every other key. */
  lemma AgreeOnStampedKeys(data: Record, want: Record)
    requires StampedKeys <= data.Keys == want.Keys
    requires data["id"] == want["id"] && data["contact"] == want["contact"] && data["valid_id"] == want["valid_id"]
    requires data["guests"] == want["guests"] && data["resort_id"] == want["resort_id"]
    requires data["created_at"] == want["created_at"] && data["updated_at"] == want["updated_at"]
    requires forall k :: k in data && k !in StampedKeys ==> data[k] == want[k]
    ensures data == want
  {
    forall k | k in data ensures data[k] == want[k] {
    }
  }

  lemma StampedKeysMatch(body: Record, folded: Record, data: Record)
    requires folded.Keys == (body.Keys - FlatKeys) + {"id", "contact", "valid_id"}
    requires data.Keys == folded.Keys + {"guests", "resort_id", "created_at", "updated_at"}
    ensures data.Keys == (body.Keys - FlatKeys) + StampedKeys
  {
  }

  /** The process-wide `reservations` list of backend/app1.py. */
  class Reservations {
    var reservations: seq<Record>

    /** The list loaded at start-up (an empty list when the file is missing or unreadable). */
    constructor (loaded: seq<Record>)
      ensures reservations == loaded
    {
      reservations := loaded;
    }

    /** GET /reservations/<id>. */
    method GetReservationById(id: int) returns (reply: Reply)
      ensures match FirstHit(reservations, id)
        case At(i) => reply == Ok(reservations[i])
        case Absent => reply == NotFound
        case KeyMissing(_) => reply == ServerError
    {
      var hit := FindFirst(reservations, id);
      match hit
      case At(i) => reply := Ok(reservations[i]);
      case Absent => reply := NotFound;
      case KeyMissing(_) => reply := ServerError;
    }

    /** POST /reservations with request body `body`, the clock reading `now`,
        Python's `int()` on strings `parseText` and the schema check `schema`
        (None when the record conforms, else the validator's message). */
    method AddReservation(body: Record, now: string, parseText: string -> Option<int>,
                          schema: Record -> Option<string>) returns (reply: Reply)
      modifies this
      ensures PyIntCall(GetOr(body, "guests", Num(1)), parseText).None? ==>
        reply == BadRequest("Guests must be an integer") && reservations == old(reservations)
      ensures PyIntCall(GetOr(body, "guests", Num(1)), parseText).Some? ==>
        var r := Created(body, CountId(old(reservations)), PyIntCall(GetOr(body, "guests", Num(1)), parseText).value, now);
        match schema(r)
        case Some(m) => reply == BadRequest("Schema validation failed: " + m) && reservations == old(reservations)
        case None => reply == Ok(r) && reservations == old(reservations) + [r]
    {
      var data := body;
      data := data["id" := Num(|reservations| + 1)];
      var phone := GetOr(data, "phone", Str(""));
      data := data - {"phone"};
      var email := GetOr(data, "email", Str(""));
      data := data - {"email"};
      data := data["contact" := Obj(map["phone" := phone, "email" := email])];
      assert phone == GetOr(body, "phone", Str("")) && email == GetOr(body, "email", Str(""));
      var idType := GetOr(data, "valid_id_type", Str(""));
      data := data - {"valid_id_type"};
      var idNumber := GetOr(data, "valid_id_number", Str(""));
      data := data - {"valid_id_number"};
      data := data["valid_id" := Obj(map["type" := idType, "number" := idNumber])];
      assert idType == GetOr(body, "valid_id_type", Str("")) && idNumber == GetOr(body, "valid_id_number", Str(""));
      ghost var folded := data;
      assert folded.Keys == (body.Keys - FlatKeys) + {"id", "contact", "valid_id"};
      assert forall k :: k in folded && k !in {"id", "contact", "valid_id"} ==> folded[k] == body[k];
      var guests := PyIntCall(GetOr(data, "guests", Num(1)), parseText);
      assert GetOr(data, "guests", Num(1)) == GetOr(body, "guests", Num(1));
      if guests.None? {
        return BadRequest("Guests must be an integer");
      }
      data := data["guests" := Num(guests.value)];
      data := data["resort_id" := GetOr(data, "resort_id", Num(1))];
      data := data["created_at" := Str(now)];
      data := data["updated_at" := Str(now)];
      StampingCompletesCreated(body, folded, |old(reservations)| + 1, guests.value, now);
      match schema(data)
      case Some(m) =>
        return BadRequest("Schema validation failed: " + m);
      case None =>
        reservations := reservations + [data];
        reply := Ok(data);
    }

    /** PUT /reservations/<id> with request body `data`. */
    method UpdateReservation(id: int, data: Record, now: string, parseText: string -> Option<int>)
      returns (reply: Reply)
      modifies this
      ensures match FirstHit(old(reservations), id)
        case Absent => reply == NotFound && reservations == old(reservations)
        case KeyMissing(_) => reply == ServerError && reservations == old(reservations)
        case At(i) =>
          match Edited(old(reservations)[i], data, now, parseText)
          case None => reply == ServerError && reservations == old(reservations)
          case Some(r) => reply == Ok(r) && reservations == old(reservations)[i := r]
    {
      var hit := FindFirst(reservations, id);
      match hit
      case Absent => reply := NotFound;
      case KeyMissing(_) => reply := ServerError;
      case At(i) =>
        var edited := Edited(reservations[i], data, now, parseText);
        match edited
        case None => reply := ServerError;
        case Some(r) =>
          reservations := reservations[i := r];
          reply := Ok(r);
    }

    /** DELETE /reservations/<id>. */
    method DeleteReservation(id: int) returns (reply: Reply)
      modifies this
      ensures match Delete(old(reservations), id)
        case Crashed => reply == ServerError && reservations == old(reservations)
        case NothingRemoved => reply == NotFound && reservations == old(reservations)
        case Remaining(kept) => reply == Done && reservations == kept
    {
      match Delete(reservations, id)
      case Crashed => reply := ServerError;
      case NothingRemoved => reply := NotFound;
      case Remaining(kept) =>
        reservations := kept;
        reply := Done;
    }
  }
}
