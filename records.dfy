/** What both backends do alike with the list of stored reservations: find the
    first record with a given id, and filter out every record with a given id. */
module Records {
  import opened Maybe
  import opened Json

  /** What a request handler answers, without the HTTP status plumbing.
      `ServerError` stands for an exception the handler does not catch. */
  datatype Reply =
    | Ok(record: Record)
    | Done
    | NotFound
    | BadRequest(message: string)
    | ServerError

  /** Python's `r["id"] == id` for a record that has an "id" key. */
  predicate IdIs(r: Record, id: int)
  {
    "id" in r && AsPyInt(r["id"]) == Some(id)
  }

  /** Every record has an id that Python can compare with and add to an int. */
  predicate NumericIds(rs: seq<Record>)
  {
    forall i :: 0 <= i < |rs| ==> "id" in rs[i] && AsPyInt(rs[i]["id"]).Some?
  }

  /** The integer id of a record with a numeric id. */
  function IdOf(r: Record): int
    requires "id" in r && AsPyInt(r["id"]).Some?
  {
    AsPyInt(r["id"]).value
  }

  /** Every record has an "id" key, so `r["id"]` raises no KeyError. */
  predicate AllHaveIds(rs: seq<Record>)
  {
    forall i :: 0 <= i < |rs| ==> "id" in rs[i]
  }

  /** What `for res in rs: if res["id"] == id: ...` meets first. */
  datatype Hit = At(index: nat) | Absent | KeyMissing(index: nat)

  /** Every record before position `k` has an id and it is not `id`. */
  ghost predicate PassedOver(rs: seq<Record>, id: int, k: int)
    requires k <= |rs|
  {
    forall j :: 0 <= j < k ==> "id" in rs[j] && !IdIs(rs[j], id)
  }

  /** `h` is what a front-to-back scan of `rs` for `id` stops at. */
  ghost predicate ScanStopsAt(rs: seq<Record>, id: int, h: Hit)
  {
    match h
    case At(i) => i < |rs| && IdIs(rs[i], id) && PassedOver(rs, id, i)
    case KeyMissing(i) => i < |rs| && "id" !in rs[i] && PassedOver(rs, id, i)
    case Absent => PassedOver(rs, id, |rs|)
  }

  /** The specification of the search loop. */
  function FirstHit(rs: seq<Record>, id: int): (h: Hit)
    ensures ScanStopsAt(rs, id, h)
  {
    if rs == [] then Absent
    else if "id" !in rs[0] then KeyMissing(0)
    else if IdIs(rs[0], id) then At(0)
    else
      match FirstHit(rs[1..], id)
      case At(i) => At(i + 1)
      case KeyMissing(i) => KeyMissing(i + 1)
      case Absent => Absent
  }

  /** A scan stops at one place only: the one `FirstHit` names. */
  lemma {:induction false} ScanStopsAtFirstHit(rs: seq<Record>, id: int, h: Hit)
    requires ScanStopsAt(rs, id, h)
    ensures h == FirstHit(rs, id)
  {
    if rs != [] && "id" in rs[0] && !IdIs(rs[0], id) {
      var tail := rs[1..];
      var h' := match h
        case At(i) => At(i - 1)
        case KeyMissing(i) => KeyMissing(i - 1)
        case Absent => Absent;
      var stop := if h'.Absent? then |tail| else h'.index;
      forall j | 0 <= j < stop && j < |tail| ensures "id" in tail[j] && !IdIs(tail[j], id) {
        assert tail[j] == rs[j + 1];
      }
      ScanStopsAtFirstHit(tail, id, h');
    }
  }

  /** The loop `for res in rs: if res["id"] == id: ...` of `get_reservation_by_id`
      and of both `update_reservation` handlers. */
  method FindFirst(rs: seq<Record>, id: int) returns (h: Hit)
    ensures ScanStopsAt(rs, id, h)
    ensures h == FirstHit(rs, id)
  {
    var i := 0;
    h := Absent;
    while i < |rs|
      invariant 0 <= i <= |rs|
      invariant PassedOver(rs, id, i)
    {
      if "id" !in rs[i] {
        h := KeyMissing(i);
        break;
      }
      if IdIs(rs[i], id) {
        h := At(i);
        break;
      }
      i := i + 1;
    }
    ScanStopsAtFirstHit(rs, id, h);
  }

  /** `[r for r in rs if r["id"] != id]`, for records that all have an id. */
  function Without(rs: seq<Record>, id: int): (kept: seq<Record>)
    ensures |kept| <= |rs|
    ensures forall r :: r in kept ==> r in rs && !IdIs(r, id)
    ensures forall r :: r in rs && !IdIs(r, id) ==> r in kept
  {
    if rs == [] then []
    else (if IdIs(rs[0], id) then [] else [rs[0]]) + Without(rs[1..], id)
  }

  /** The filter keeps the survivors in their original order: filtering a
      concatenation filters each part. */
  lemma {:induction false} WithoutConcat(a: seq<Record>, b: seq<Record>, id: int)
    ensures Without(a + b, id) == Without(a, id) + Without(b, id)
  {
    if a == [] {
      assert a + b == b;
    } else {
      assert (a + b)[1..] == a[1..] + b;
      WithoutConcat(a[1..], b, id);
    }
  }

  /** The filter removes nothing exactly when no record has the id. */
  lemma {:induction false} WithoutKeepsAllIff(rs: seq<Record>, id: int)
    ensures |Without(rs, id)| == |rs| <==> forall i :: 0 <= i < |rs| ==> !IdIs(rs[i], id)
  {
    if rs != [] {
      WithoutKeepsAllIff(rs[1..], id);
      if forall i :: 0 <= i < |rs| ==> !IdIs(rs[i], id) {
        assert forall i :: 0 <= i < |rs[1..]| ==> !IdIs(rs[1..][i], id) by {
          forall i | 0 <= i < |rs[1..]| ensures !IdIs(rs[1..][i], id) {
            assert rs[1..][i] == rs[i + 1];
          }
        }
      } else if !IdIs(rs[0], id) {
        var i :| 0 <= i < |rs| && IdIs(rs[i], id);
        assert rs[1..][i - 1] == rs[i];
      }
    }
  }

  /** What `new = [r for r in rs if r["id"] != id]; if len(new) == len(rs): ...` yields. */
  datatype Deletion = Crashed | NothingRemoved | Remaining(kept: seq<Record>)

  function Delete(rs: seq<Record>, id: int): (d: Deletion)
    ensures d.Crashed? <==> !AllHaveIds(rs)
    ensures d.NothingRemoved? <==> AllHaveIds(rs) && forall i :: 0 <= i < |rs| ==> !IdIs(rs[i], id)
    ensures d.Remaining? ==> d.kept == Without(rs, id) && |d.kept| < |rs|
  {
    WithoutKeepsAllIff(rs, id);
    if !AllHaveIds(rs) then Crashed
    else if |Without(rs, id)| == |rs| then NothingRemoved
    else Remaining(Without(rs, id))
  }
}
