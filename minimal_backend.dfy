/** The minimal backend (backend/app.py): every request reads the whole JSON
    file, changes the list it read, and writes the whole list back. */
module MinimalBackend {
  import opened Maybe
  import opened Json
  import opened Records

  /** The reservations file as `read_data` and `write_data` see it.
      `writes` counts the calls to `write_data`. */
  class DataFile {
    var records: seq<Record>
    var writes: nat

    constructor (initial: seq<Record>)
      ensures records == initial && writes == 0
    {
      records := initial;
      writes := 0;
    }

    /** `read_data()`. */
    method Read() returns (data: seq<Record>)
      ensures data == records
    {
      data := records;
    }

    /** `write_data(data)`. */
    method Write(data: seq<Record>)
      modifies this
      ensures records == data && writes == old(writes) + 1
    {
      records := data;
      writes := writes + 1;
    }
  }

  /** `data[-1]["id"] + 1 if data else 1`, or None when the last record has no
      "id" (KeyError) or an id Python cannot add 1 to (TypeError). On a list
      with increasing ids the id exists and is larger than every id in use, so
      it is fresh. */
  function NextId(data: seq<Record>): (r: Option<int>)
    ensures data == [] ==> r == Some(1)
    ensures r.None? <==> data != [] && !("id" in data[|data| - 1] && AsPyInt(data[|data| - 1]["id"]).Some?)
    ensures IdsIncreasing(data) ==> r.Some? && forall i :: 0 <= i < |data| ==> IdOf(data[i]) < r.value
  {
    if data == [] then Some(1)
    else
      var last := data[|data| - 1];
      if "id" in last && AsPyInt(last["id"]).Some? then Some(AsPyInt(last["id"]).value + 1)
      else None
  }

  /** Ids are numeric and strictly increasing along the list. */
  predicate IdsIncreasing(rs: seq<Record>)
  {
    NumericIds(rs) && forall i, j :: 0 <= i < j < |rs| ==> IdOf(rs[i]) < IdOf(rs[j])
  }

  /** Creating keeps ids increasing. */
  lemma AddKeepsIdsIncreasing(rs: seq<Record>, body: Record)
    requires IdsIncreasing(rs)
    ensures NextId(rs).Some?
    ensures IdsIncreasing(rs + [body["id" := Num(NextId(rs).value)]])
  {
    var after := rs + [body["id" := Num(NextId(rs).value)]];
    forall i, j | 0 <= i < j < |after| ensures IdOf(after[i]) < IdOf(after[j]) {
      if j == |rs| {
        assert after[i] == rs[i];
      }
    }
  }

  /** Dropping the first record keeps ids increasing. */
  lemma TailIdsIncreasing(rs: seq<Record>)
    requires IdsIncreasing(rs) && rs != []
    ensures IdsIncreasing(rs[1..])
    ensures forall k :: 0 <= k < |rs[1..]| ==> IdOf(rs[0]) < IdOf(rs[1..][k])
  {
    var tail := rs[1..];
    forall i | 0 <= i < |tail| ensures "id" in tail[i] && AsPyInt(tail[i]["id"]).Some? {
      assert tail[i] == rs[i + 1];
    }
    forall i, j | 0 <= i < j < |tail| ensures IdOf(tail[i]) < IdOf(tail[j]) {
      assert tail[i] == rs[i + 1] && tail[j] == rs[j + 1];
    }
    forall k | 0 <= k < |tail| ensures IdOf(rs[0]) < IdOf(tail[k]) {
      assert tail[k] == rs[k + 1];
    }
  }

  /** A record with a smaller id than all of an increasing list may go in front. */
  lemma ConsIdsIncreasing(r: Record, rest: seq<Record>)
    requires "id" in r && AsPyInt(r["id"]).Some?
    requires IdsIncreasing(rest)
    requires forall k :: 0 <= k < |rest| ==> IdOf(r) < IdOf(rest[k])
    ensures IdsIncreasing([r] + rest)
  {
    var all := [r] + rest;
    forall i, j | 0 <= i < j < |all| ensures IdOf(all[i]) < IdOf(all[j]) {
      assert all[j] == rest[j - 1];
      if i > 0 {
        assert all[i] == rest[i - 1];
      }
    }
  }

  /** Deleting keeps ids increasing. */
  lemma {:induction false} DeleteKeepsIdsIncreasing(rs: seq<Record>, id: int)
    requires IdsIncreasing(rs)
    ensures IdsIncreasing(Without(rs, id))
  {
    if rs != [] {
      var tail := rs[1..];
      TailIdsIncreasing(rs);
      DeleteKeepsIdsIncreasing(tail, id);
      var rest := Without(tail, id);
      if !IdIs(rs[0], id) {
        forall k | 0 <= k < |rest| ensures IdOf(rs[0]) < IdOf(rest[k]) {
          assert rest[k] in tail;
          var m :| 0 <= m < |tail| && tail[m] == rest[k];
        }
        ConsIdsIncreasing(rs[0], rest);
      }
    }
  }

  /** An update whose body has no "id" key keeps ids increasing. */
  lemma UpdateWithoutIdKeepsIdsIncreasing(rs: seq<Record>, i: nat, body: Record)
    requires IdsIncreasing(rs) && i < |rs|
    requires "id" !in body
    ensures IdsIncreasing(rs[i := rs[i] + body])
  {
    var after := rs[i := rs[i] + body];
    assert after[i]["id"] == rs[i]["id"];
    forall j | 0 <= j < |after| ensures "id" in after[j] && IdOf(after[j]) == IdOf(rs[j]) {
    }
  }

  /** But the merge overwrites unconditionally, so a body carrying "id" can
      break the order: ids [1, 2], PUT /reservations/1 with {"id": 5}. */
  lemma UpdateWithIdCanBreakOrder()
    ensures var rs := [map["id" := Num(1)], map["id" := Num(2)]];
      && IdsIncreasing(rs)
      && FirstHit(rs, 1) == At(0)
      && !IdsIncreasing(rs[0 := rs[0] + map["id" := Num(5)]])
  {
    var rs: seq<Record> := [map["id" := Num(1)], map["id" := Num(2)]];
    assert IdIs(rs[0], 1);
    var after := rs[0 := rs[0] + map["id" := Num(5)]];
    assert IdOf(after[0]) == 5 && IdOf(after[1]) == 2;
  }

  /** POST /reservations with request body `body`. */
  method AddReservation(file: DataFile, body: Record) returns (reply: Reply)
    modifies file
    ensures match NextId(old(file.records))
      case None => reply == ServerError && file.records == old(file.records) && file.writes == old(file.writes)
      case Some(n) =>
        && reply == Done
        && file.records == old(file.records) + [body["id" := Num(n)]]
        && file.writes == old(file.writes) + 1
  {
    var data := file.Read();
    var newRes := body;
    match NextId(data)
    case None =>
      reply := ServerError;
    case Some(n) =>
      newRes := newRes["id" := Num(n)];
      data := data + [newRes];
      file.Write(data);
      reply := Done;
  }

  /** PUT /reservations/<id> with request body `body`: `res.update(body)` on the
      first record with that id. */
  method UpdateReservation(file: DataFile, id: int, body: Record) returns (reply: Reply)
    modifies file
    ensures match FirstHit(old(file.records), id)
      case At(i) =>
        && reply == Done
        && file.records == old(file.records)[i := old(file.records)[i] + body]
        && file.writes == old(file.writes) + 1
      case Absent => reply == NotFound && file.records == old(file.records) && file.writes == old(file.writes)
      case KeyMissing(_) => reply == ServerError && file.records == old(file.records) && file.writes == old(file.writes)
  {
    var data := file.Read();
    var hit := FindFirst(data, id);
    match hit
    case At(i) =>
      data := data[i := data[i] + body];
      file.Write(data);
      reply := Done;
    case Absent =>
      reply := NotFound;
    case KeyMissing(_) =>
      reply := ServerError;
  }

  /** DELETE /reservations/<id>. */
  method DeleteReservation(file: DataFile, id: int) returns (reply: Reply)
    modifies file
    ensures match Delete(old(file.records), id)
      case Crashed => reply == ServerError && file.records == old(file.records) && file.writes == old(file.writes)
      case NothingRemoved => reply == NotFound && file.records == old(file.records) && file.writes == old(file.writes)
      case Remaining(kept) => reply == Done && file.records == kept && file.writes == old(file.writes) + 1
  {
    var data := file.Read();
    match Delete(data, id)
    case Crashed =>
      reply := ServerError;
    case NothingRemoved =>
      reply := NotFound;
    case Remaining(newData) =>
      file.Write(newData);
      reply := Done;
  }
}
