/** Vocabulary shared by every controller of the kiosk back end: optional
    values, the classes of HTTP response the actions return, money and
    timestamps, and lookups over tables that are scanned in insertion order. */
module Common {

  datatype Option<+T> = None | Some(value: T)

  /** The response classes the controller actions return. `Ok` stands for every
      success response (200 OK, 201 Created, 204 No Content). */
  datatype Status = Ok | BadRequest | NotFound | Unauthorized

  /** What a read-only action answers: a response body, or an error status. */
  datatype Result<+T> = Success(value: T) | Failure(status: Status)

  /** A C# `decimal` amount, held exactly (no binary floating point). */
  type Money = real

  /** A `DateTime`, as an abstract tick count; the clock is a parameter. */
  type Timestamp = int

  /** The index of the first row satisfying `p`: the row that `FirstOrDefault`
      (and `FindAsync` on the primary key) yields when the table is scanned in
      insertion order. */
  function FirstIndex<T>(rows: seq<T>, p: T -> bool): (r: Option<nat>)
    ensures r.Some? ==> r.value < |rows| && p(rows[r.value])
    ensures r.Some? ==> forall j :: 0 <= j < r.value ==> !p(rows[j])
    ensures r.None? <==> forall j :: 0 <= j < |rows| ==> !p(rows[j])
  {
    if |rows| == 0 then None
    else if p(rows[0]) then Some(0)
    else match FirstIndex(rows[1..], p)
      case None => None
      case Some(k) => Some(k + 1)
  }

  /** The rows of `rows` that satisfy `p`, in their original order (LINQ `Where`):
      each satisfying row as often as it occurs in `rows`, no other row. */
  function Filter<T(!new)>(rows: seq<T>, p: T -> bool): (r: seq<T>)
    ensures forall i :: 0 <= i < |r| ==> p(r[i])
    ensures forall x :: multiset(r)[x] == if p(x) then multiset(rows)[x] else 0
  {
    if |rows| == 0 then []
    else
      var rest := Filter(rows[1..], p);
      assert rows == [rows[0]] + rows[1..];
      if p(rows[0]) then [rows[0]] + rest else rest
  }

  /** The table without its row at index `i` (`Remove` followed by a save). */
  function RemoveAt<T>(rows: seq<T>, i: nat): (r: seq<T>)
    requires i < |rows|
    ensures |r| == |rows| - 1
    ensures forall j :: 0 <= j < i ==> r[j] == rows[j]
    ensures forall j :: i <= j < |r| ==> r[j] == rows[j + 1]
    ensures multiset(r) + multiset{rows[i]} == multiset(rows)
  {
    assert rows == rows[..i] + [rows[i]] + rows[i + 1..];
    rows[..i] + rows[i + 1..]
  }

  function Min(a: int, b: int): int { if a <= b then a else b }
}
