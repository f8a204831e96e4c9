/**
 * The relational store behind the service: the products table with its image
 * rows, in the store's own row order. Its queries and writes are given as
 * functions over the rows; the `Database` object holds the current rows and
 * applies them, or fails with an error injected by the caller (a lost
 * connection, say), leaving the rows as they were.
 */
module Store {
  import opened Wrappers
  import opened Text
  import opened Uuid
  import opened Entities

  /** Two rows that can sit in the table together: different id, title and slug. */
  predicate Distinct(x: Row, y: Row)
  {
    x.id != y.id && x.details.title != y.details.title && x.details.slug != y.details.slug
  }

  /**
   * What the table's keys guarantee: ids are UUIDs and unique (primary key), and
   * no two products share a title or a slug (unique columns).
   */
  predicate ValidRows(rows: seq<Row>)
  {
    (forall j :: 0 <= j < |rows| ==> IsUuid(rows[j].id)) &&
    (forall i, j :: 0 <= i < j < |rows| ==> Distinct(rows[i], rows[j]))
  }

  /** `findOneBy({ id })`: the position of the row with that id. */
  function IndexOfId(rows: seq<Row>, id: string): (k: Option<nat>)
    ensures k.Some? ==> k.value < |rows| && rows[k.value].id == id
    ensures k.Some? ==> forall j :: 0 <= j < k.value ==> rows[j].id != id
    ensures k.None? ==> forall j :: 0 <= j < |rows| ==> rows[j].id != id
  {
    if rows == [] then None
    else if rows[0].id == id then Some(0)
    else match IndexOfId(rows[1..], id)
      case None => None
      case Some(k) => Some(k + 1)
  }

  /** With unique ids, the row found by id is the only one carrying it. */
  lemma IndexOfIdUnique(rows: seq<Row>, i: nat)
    requires ValidRows(rows) && i < |rows|
    ensures IndexOfId(rows, rows[i].id) == Some(i)
  {
  }

  /** The slug/title query `UPPER(title) = UPPER(term) OR slug = LOWER(term)` for one row. */
  predicate Matches(row: Row, term: string)
    ensures Matches(row, term) <==> Lower(term) == Lower(row.details.title) || Lower(term) == row.details.slug
  {
    SameUpperSameLower(row.details.title, term);
    Upper(row.details.title) == Upper(term) || row.details.slug == Lower(term)
  }

  /** `getOne()` on the slug/title query: the first matching row in the store's order. */
  function FirstMatch(rows: seq<Row>, term: string): (k: Option<nat>)
    ensures k.Some? ==> k.value < |rows| && Matches(rows[k.value], term)
    ensures k.Some? ==> forall j :: 0 <= j < k.value ==> !Matches(rows[j], term)
    ensures k.None? ==> forall j :: 0 <= j < |rows| ==> !Matches(rows[j], term)
  {
    if rows == [] then None
    else if Matches(rows[0], term) then Some(0)
    else match FirstMatch(rows[1..], term)
      case None => None
      case Some(k) => Some(k + 1)
  }

  /** Matching only looks at the term up to case. */
  lemma MatchesIgnoresCase(row: Row, t1: string, t2: string)
    requires Lower(t1) == Lower(t2)
    ensures Matches(row, t1) == Matches(row, t2)
  {
    UpperOfLower(t1);
    UpperOfLower(t2);
  }

  /** PostgreSQL's report of a unique violation. */
  function DuplicateKey(column: string, value: string): DbError
  {
    DbError(UniqueViolation, "Key (" + column + ")=(" + value + ") already exists.")
  }

  /**
   * The unique constraint a write of product `id` with columns `d` would break:
   * another product with the same title (reported first) or the same slug.
   */
  function Violation(rows: seq<Row>, id: string, d: Details): (e: Option<DbError>)
    ensures e.None? <==> forall j :: 0 <= j < |rows| && rows[j].id != id ==>
      rows[j].details.title != d.title && rows[j].details.slug != d.slug
    ensures e.Some? ==> e.value.code == UniqueViolation
  {
    if exists j :: 0 <= j < |rows| && rows[j].id != id && rows[j].details.title == d.title then
      Some(DuplicateKey("title", d.title))
    else if exists j :: 0 <= j < |rows| && rows[j].id != id && rows[j].details.slug == d.slug then
      Some(DuplicateKey("slug", d.slug))
    else
      None
  }

  /** The row a save of `p` writes over the stored row `stored`: relations not assigned on `p` stay as stored. */
  function SavedRow(p: Product, stored: Row): Row
  {
    Row(p.id, p.details, p.images.GetOr(stored.images), if p.user.Some? then p.user else stored.user)
  }

  /** The row a save of `p` inserts: relations not assigned on `p` are empty. */
  function InsertedRow(p: Product): Row
  {
    Row(p.id, p.details, p.images.GetOr([]), p.user)
  }

  /**
   * `save(product)`: an UPDATE of the row with the product's id when there is one,
   * an INSERT at the end otherwise; refused as a whole when a unique column clashes.
   */
  function Saved(rows: seq<Row>, p: Product): (r: Result<seq<Row>, DbError>)
    ensures r.Err? <==> Violation(rows, p.id, p.details).Some?
    ensures r.Err? ==> r.error.code == UniqueViolation
    ensures r.Ok? && IndexOfId(rows, p.id).Some? ==>
      var k := IndexOfId(rows, p.id).value;
      |r.value| == |rows| &&
      (forall j :: 0 <= j < |rows| && j != k ==> r.value[j] == rows[j]) &&
      r.value[k].id == p.id && r.value[k].details == p.details &&
      r.value[k].images == p.images.GetOr(rows[k].images) &&
      r.value[k].user == (if p.user.Some? then p.user else rows[k].user)
    ensures r.Ok? && IndexOfId(rows, p.id).None? ==>
      |r.value| == |rows| + 1 && r.value[..|rows|] == rows &&
      r.value[|rows|].id == p.id && r.value[|rows|].details == p.details &&
      r.value[|rows|].images == p.images.GetOr([]) && r.value[|rows|].user == p.user
  {
    match Violation(rows, p.id, p.details)
    case Some(e) => Err(e)
    case None =>
      match IndexOfId(rows, p.id)
      case Some(i) => Ok(rows[i := SavedRow(p, rows[i])])
      case None => Ok(rows + [InsertedRow(p)])
  }

  /** A successful save keeps the keys valid, and the saved row is then found by its id. */
  lemma SavedKeepsValid(rows: seq<Row>, p: Product)
    requires ValidRows(rows) && IsUuid(p.id)
    requires Saved(rows, p).Ok?
    ensures ValidRows(Saved(rows, p).value)
    ensures IndexOfId(Saved(rows, p).value, p.id).Some?
  {
    var r := Saved(rows, p).value;
    match IndexOfId(rows, p.id)
    case Some(i) =>
      assert r == rows[i := SavedRow(p, rows[i])];
      forall a, b | 0 <= a < b < |r| ensures Distinct(r[a], r[b]) {
        if a == i { assert rows[b].id != p.id; }
        else if b == i { assert rows[a].id != p.id; }
      }
      assert r[i].id == p.id;
    case None =>
      assert r == rows + [InsertedRow(p)];
      assert r[|rows|].id == p.id;
  }

  /** `delete(ProductImage, { product: { id } })`: the images of that product are gone, nothing else moves. */
  function DeleteImagesOf(rows: seq<Row>, id: string): (r: seq<Row>)
    ensures |r| == |rows|
    ensures forall j :: 0 <= j < |r| ==> r[j].id == rows[j].id && r[j].details == rows[j].details && r[j].user == rows[j].user
    ensures forall j :: 0 <= j < |r| ==> r[j].images == if rows[j].id == id then [] else rows[j].images
  {
    seq(|rows|, j requires 0 <= j < |rows| => if rows[j].id == id then rows[j].(images := []) else rows[j])
  }

  /** `remove(product)` by primary key, image rows included: every other row is kept, in order. */
  function Without(rows: seq<Row>, id: string): (r: seq<Row>)
    ensures forall x :: x in r <==> x in rows && x.id != id
    ensures |r| <= |rows|
    ensures (forall j :: 0 <= j < |rows| ==> rows[j].id != id) ==> r == rows
  {
    if rows == [] then []
    else if rows[0].id == id then Without(rows[1..], id)
    else [rows[0]] + Without(rows[1..], id)
  }

  /** Removing an id that only position `k` carries leaves the rows before and after it, in order. */
  lemma {:induction false} WithoutOnly(rows: seq<Row>, id: string, k: nat)
    requires k < |rows| && rows[k].id == id
    requires forall j :: 0 <= j < |rows| && j != k ==> rows[j].id != id
    ensures Without(rows, id) == rows[..k] + rows[k + 1..]
  {
    if k == 0 {
      WithoutHead(rows, id);
    } else {
      var tail := rows[1..];
      forall j | 0 <= j < |tail| && j != k - 1 ensures tail[j].id != id {
        assert tail[j] == rows[j + 1];
      }
      WithoutOnly(tail, id, k - 1);
      SplitAfterHead(rows, k);
    }
  }

  lemma WithoutHead(rows: seq<Row>, id: string)
    requires rows != [] && rows[0].id == id
    requires forall j :: 0 < j < |rows| ==> rows[j].id != id
    ensures Without(rows, id) == rows[1..]
  {
    var tail := rows[1..];
    forall j | 0 <= j < |tail| ensures tail[j].id != id {
      assert tail[j] == rows[j + 1];
    }
  }

  lemma SplitAfterHead(rows: seq<Row>, k: nat)
    requires 0 < k < |rows|
    ensures [rows[0]] + (rows[1..][..k - 1] + rows[1..][k..]) == rows[..k] + rows[k + 1..]
  {
  }

  /** With unique ids, removing the product at position `k` leaves the rows before and after it, in order. */
  lemma WithoutAt(rows: seq<Row>, k: nat)
    requires ValidRows(rows) && k < |rows|
    ensures Without(rows, rows[k].id) == rows[..k] + rows[k + 1..]
  {
    forall j | 0 <= j < |rows| && j != k ensures rows[j].id != rows[k].id {
      if j < k { assert Distinct(rows[j], rows[k]); } else { assert Distinct(rows[k], rows[j]); }
    }
    WithoutOnly(rows, rows[k].id, k);
  }

  lemma ValidTail(rows: seq<Row>)
    requires ValidRows(rows) && rows != []
    ensures ValidRows(rows[1..])
    ensures forall y :: y in rows[1..] ==> Distinct(rows[0], y)
  {
  }

  lemma ValidCons(x: Row, w: seq<Row>)
    requires ValidRows(w) && IsUuid(x.id)
    requires forall y :: y in w ==> Distinct(x, y)
    ensures ValidRows([x] + w)
  {
  }

  lemma {:induction false} WithoutKeepsValid(rows: seq<Row>, id: string)
    requires ValidRows(rows)
    ensures ValidRows(Without(rows, id))
  {
    if rows != [] {
      ValidTail(rows);
      WithoutKeepsValid(rows[1..], id);
      if rows[0].id != id {
        ValidCons(rows[0], Without(rows[1..], id));
      }
    }
  }

  /**
   * `find({ take: limit, skip: offset })` in the store's order. A `take` or `skip`
   * of 0 is ignored by the mapper, so a limit of 0 means no limit.
   */
  function Page(rows: seq<Row>, limit: nat, offset: nat): (r: seq<Row>)
    ensures limit > 0 ==> |r| <= limit
    ensures offset >= |rows| ==> r == []
    ensures offset < |rows| && (limit == 0 || offset + limit >= |rows|) ==> |r| == |rows| - offset
    ensures limit > 0 && offset + limit <= |rows| ==> |r| == limit
    ensures forall k :: 0 <= k < |r| ==> offset + k < |rows| && r[k] == rows[offset + k]
  {
    if offset >= |rows| then []
    else if limit == 0 || offset + limit > |rows| then rows[offset..]
    else rows[offset..offset + limit]
  }

  class Database {
    var rows: seq<Row>

    ghost predicate Valid()
      reads this
    {
      ValidRows(rows)
    }

    constructor ()
      ensures Valid() && rows == []
    {
      rows := [];
    }

    /** Writes `p` with its assigned images in one unit, or fails and writes nothing. */
    method Save(p: Product, fault: Option<DbError>) returns (err: Option<DbError>)
      requires Valid() && IsUuid(p.id)
      modifies this
      ensures Valid()
      ensures fault.Some? ==> err == fault && rows == old(rows)
      ensures fault.None? && Saved(old(rows), p).Ok? ==> err.None? && rows == Saved(old(rows), p).value
      ensures fault.None? && Saved(old(rows), p).Err? ==> err == Some(Saved(old(rows), p).error) && rows == old(rows)
    {
      if fault.Some? {
        return fault;
      }
      var saved := Saved(rows, p);
      if saved.Err? {
        return Some(saved.error);
      }
      SavedKeepsValid(rows, p);
      rows := saved.value;
      err := None;
    }

    /** Deletes every image row of product `id`. */
    method DeleteImages(id: string, fault: Option<DbError>) returns (err: Option<DbError>)
      requires Valid()
      modifies this
      ensures Valid()
      ensures err == fault
      ensures rows == if fault.Some? then old(rows) else DeleteImagesOf(old(rows), id)
    {
      err := fault;
      if fault.None? {
        rows := DeleteImagesOf(rows, id);
      }
    }

    /** Deletes the product `id` and its images. */
    method Remove(id: string, fault: Option<DbError>) returns (err: Option<DbError>)
      requires Valid()
      modifies this
      ensures Valid()
      ensures err == fault
      ensures rows == if fault.Some? then old(rows) else Without(old(rows), id)
    {
      err := fault;
      if fault.None? {
        WithoutKeepsValid(rows, id);
        rows := Without(rows, id);
      }
    }

    /** `DELETE FROM products`: every product and, by cascade, every image; returns the affected count. */
    method DeleteAll(fault: Option<DbError>) returns (r: Result<nat, DbError>)
      requires Valid()
      modifies this
      ensures Valid()
      ensures fault.Some? ==> r == Err(fault.value) && rows == old(rows)
      ensures fault.None? ==> r == Ok(|old(rows)|) && rows == []
    {
      if fault.Some? {
        return Err(fault.value);
      }
      r := Ok(|rows|);
      rows := [];
    }
  }
}
