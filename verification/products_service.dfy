/**
 * The products service: lookup by term, the plain projections, and the
 * mutations `create`, `update`, `remove` and `removeAllProducts`, with the
 * translation of store errors into the service's exceptions.
 *
 * Each mutation is described twice: by an `...Outcome` function that says, in
 * one step, what the call returns, which rows the store holds afterwards and what
 * is logged; and by a method of `ProductsService` that goes through the store
 * (and, for `update`, a transaction) step by step and is proved to produce
 * exactly that outcome. The lemmas state the properties of the outcomes.
 *
 * Failures of the store's writes, of the transaction steps and of the read
 * that follows an update's commit (a lost connection, a failing commit) are
 * passed in as parameters; the lookups themselves never fail.
 */
module Products {
  import opened Wrappers
  import opened Text
  import opened Uuid
  import opened Entities
  import opened Store
  import opened Transactions

  /** What a mutation ends with: its result, the rows afterwards, and the errors it logged. */
  datatype Outcome<T> = Outcome(result: Result<T, ServiceError>, rows: seq<Row>, logged: seq<DbError>)

  /** The steps of `update` at which the store can fail. */
  datatype Step = Connect | StartTransaction | DeleteImages | Save | Commit | Read

  datatype Fault = NoFault | FailAt(step: Step, error: DbError)

  function FaultAt(fault: Fault, s: Step): (e: Option<DbError>)
    ensures e.Some? <==> fault.FailAt? && fault.step == s
    ensures e.Some? ==> e.value == fault.error
  {
    if fault.FailAt? && fault.step == s then Some(fault.error) else None
  }

  /** PostgreSQL refusing a non-UUID text where the uuid id column is compared (SQLSTATE 22P02). */
  function InvalidUuid(id: string): DbError
  {
    DbError("22P02", "invalid input syntax for type uuid: \"" + id + "\"")
  }

  // ----- lookup and projections -----

  /**
   * `findOne`: a UUID-shaped term is looked up by id and by nothing else; any
   * other term finds the first product whose title equals it ignoring case or
   * whose slug equals it lower-cased. No product means NotFound. The lookup by
   * id loads the owner with the images; the title/slug query joins the images
   * only, so a product found that way comes without its owner.
   */
  function FindOne(rows: seq<Row>, term: string): (r: Result<Product, ServiceError>)
    ensures r.Err? ==> r.error == NotFound(NotFoundMessage(term))
    ensures IsUuid(term) ==> (r.Ok? <==> exists j :: 0 <= j < |rows| && rows[j].id == term)
    ensures IsUuid(term) && r.Ok? ==> r.value.id == term
    ensures !IsUuid(term) ==> (r.Ok? <==> exists j :: 0 <= j < |rows| && Matches(rows[j], term))
    ensures !IsUuid(term) && r.Ok? ==>
      Upper(r.value.details.title) == Upper(term) || r.value.details.slug == Lower(term)
    ensures IsUuid(term) && r.Ok? ==> exists j :: 0 <= j < |rows| && r.value == Load(rows[j])
    ensures !IsUuid(term) && r.Ok? ==> exists j :: 0 <= j < |rows| && r.value == LoadWithImages(rows[j])
    ensures !IsUuid(term) && r.Ok? ==> r.value.user.None?
  {
    if IsUuid(term) then
      match IndexOfId(rows, term)
      case Some(j) => Ok(Load(rows[j]))
      case None => Err(NotFound(NotFoundMessage(term)))
    else
      match FirstMatch(rows, term)
      case Some(j) => Ok(LoadWithImages(rows[j]))
      case None => Err(NotFound(NotFoundMessage(term)))
  }

  /** `findOnePlain`: the plain projection of what `findOne` finds. */
  function FindOnePlain(rows: seq<Row>, term: string): (r: Result<PlainProduct, ServiceError>)
    ensures r.Ok? <==> FindOne(rows, term).Ok?
    ensures r.Err? ==> r.error == NotFound(NotFoundMessage(term))
    ensures r.Ok? ==> r.value == ToPlain(FindOne(rows, term).value)
    ensures r.Ok? ==>
      exists j :: 0 <= j < |rows| && r.value.id == rows[j].id && r.value.details == rows[j].details &&
                   r.value.images == Urls(rows[j].images) &&
                   r.value.user == (if IsUuid(term) then rows[j].user else None)
  {
    match FindOne(rows, term)
    case Ok(p) => Ok(ToPlain(p))
    case Err(e) => Err(e)
  }

  /**
   * `findAll`: at most `limit` products (10 when not given; 0 means no limit)
   * after skipping `offset` (0 when not given), in store order, each projected.
   */
  function FindAll(rows: seq<Row>, pagination: PaginationDto): (r: seq<PlainProduct>)
    ensures var limit := pagination.limit.GetOr(10);
      limit > 0 ==> |r| <= limit
    ensures var offset := pagination.offset.GetOr(0);
      forall k :: 0 <= k < |r| ==> offset + k < |rows| && r[k] == ToPlain(Load(rows[offset + k]))
    ensures var offset := pagination.offset.GetOr(0);
      offset >= |rows| ==> r == []
    ensures var limit, offset := pagination.limit.GetOr(10), pagination.offset.GetOr(0);
      limit > 0 && offset + limit <= |rows| ==> |r| == limit
    ensures var limit, offset := pagination.limit.GetOr(10), pagination.offset.GetOr(0);
      offset < |rows| && (limit == 0 || offset + limit >= |rows|) ==> |r| == |rows| - offset
  {
    var page := Page(rows, pagination.limit.GetOr(10), pagination.offset.GetOr(0));
    seq(|page|, k requires 0 <= k < |page| => ToPlain(Load(page[k])))
  }

  lemma FindOneById(rows: seq<Row>, i: nat)
    requires ValidRows(rows) && i < |rows|
    ensures FindOne(rows, rows[i].id) == Ok(Load(rows[i]))
  {
  }

  /**
   * A term that is not UUID-shaped and names a product by title (any case) or by
   * its slug (any case, for a lower-case slug) resolves: to that product, or to
   * one before it in store order that the term also matches.
   */
  lemma FindOneByTitleOrSlug(rows: seq<Row>, i: nat, term: string)
    requires i < |rows| && !IsUuid(term)
    requires Upper(term) == Upper(rows[i].details.title) || Lower(term) == rows[i].details.slug
    ensures FindOne(rows, term).Ok?
    ensures exists k :: 0 <= k <= i && FindOne(rows, term).value == LoadWithImages(rows[k]) && Matches(rows[k], term)
    ensures (forall j :: 0 <= j < i ==> !Matches(rows[j], term)) ==> FindOne(rows, term) == Ok(LoadWithImages(rows[i]))
  {
  }

  /** Terms that differ only in case, and are not UUID-shaped, find the same product. */
  lemma FindOneIgnoresCase(rows: seq<Row>, t1: string, t2: string)
    requires Lower(t1) == Lower(t2) && !IsUuid(t1)
    ensures !IsUuid(t2)
    ensures FindOne(rows, t1).Ok? == FindOne(rows, t2).Ok?
    ensures FindOne(rows, t1).Ok? ==> FindOne(rows, t1).value == FindOne(rows, t2).value
  {
    IsUuidIgnoresCase(t1);
    IsUuidIgnoresCase(t2);
    forall j | 0 <= j < |rows| ensures Matches(rows[j], t1) == Matches(rows[j], t2) {
      MatchesIgnoresCase(rows[j], t1, t2);
    }
    FirstMatchSame(rows, t1, t2);
  }

  lemma FirstMatchSame(rows: seq<Row>, t1: string, t2: string)
    requires forall j :: 0 <= j < |rows| ==> Matches(rows[j], t1) == Matches(rows[j], t2)
    ensures FirstMatch(rows, t1) == FirstMatch(rows, t2)
  {
  }

  // ----- create -----

  /**
   * `create`: the product built from the input, with a fresh id from the store,
   * saved with its images as one unit; a failed save writes nothing and is
   * translated by `handlerDBExceptions`.
   */
  function CreateOutcome(rows: seq<Row>, dto: CreateProductDto, user: User, newId: string, fault: Option<DbError>): (o: Outcome<Product>)
    ensures o.result.Err? ==> o.rows == rows
    ensures o.result.Ok? ==> o.result.value.id == newId && o.logged == []
    ensures fault.Some? ==> o == Outcome(Err(Translate(fault.value)), rows, Logged(fault))
    ensures fault.None? ==> (o.result.Ok? <==> Violation(rows, newId, dto.details).None?)
    ensures o.result.Ok? ==> |o.rows| == |rows| + 1 && o.rows[..|rows|] == rows
    ensures o.result.Ok? ==>
      o.rows[|rows|].id == newId && o.rows[|rows|].details == dto.details &&
      Urls(o.rows[|rows|].images) == dto.images.GetOr([]) && o.rows[|rows|].user == Some(user)
  {
    var product := Build(dto, newId, user);
    var err := if fault.Some? then fault else Violation(rows, newId, dto.details);
    match err
    case Some(e) => Outcome(Err(Translate(e)), rows, Logged(err))
    case None => Outcome(Ok(product), rows + [Row(newId, dto.details, ImagesFrom(dto.images.GetOr([])), Some(user))], [])
  }

  /**
   * The created product carries exactly the input URLs, in order (none when
   * omitted), and the caller as owner; reading it back by its id gives the
   * same product and the same URLs.
   */
  lemma CreateThenFind(rows: seq<Row>, dto: CreateProductDto, user: User, newId: string, fault: Option<DbError>)
    requires ValidRows(rows) && IsUuid(newId)
    requires forall j :: 0 <= j < |rows| ==> rows[j].id != newId
    requires CreateOutcome(rows, dto, user, newId, fault).result.Ok?
    ensures var o := CreateOutcome(rows, dto, user, newId, fault);
      ValidRows(o.rows) &&
      o.result.value.user == Some(user) &&
      Urls(o.result.value.images.value) == dto.images.GetOr([]) &&
      FindOne(o.rows, newId) == Ok(o.result.value) &&
      FindOnePlain(o.rows, newId).value.images == dto.images.GetOr([])
  {
    var o := CreateOutcome(rows, dto, user, newId, fault);
    var p := Build(dto, newId, user);
    assert Saved(rows, p) == Ok(o.rows);
    SavedKeepsValid(rows, p);
    IndexOfIdUnique(o.rows, |rows|);
    UrlsOfImagesFrom(dto.images.GetOr([]));
  }

  /**
   * A product whose slug or title is already taken is refused with BadRequest
   * carrying the store's detail, and the products already stored stay as they are.
   */
  lemma CreateDuplicate(rows: seq<Row>, dto: CreateProductDto, user: User, newId: string, j: nat)
    requires j < |rows| && rows[j].id != newId
    requires rows[j].details.slug == dto.details.slug || rows[j].details.title == dto.details.title
    ensures var o := CreateOutcome(rows, dto, user, newId, None);
      o.rows == rows && o.logged == [] &&
      o.result == Err(BadRequest(Violation(rows, newId, dto.details).value.detail))
  {
  }

  // ----- update -----

  /** The stored product after a successful update: merged fields, images replaced when supplied, the caller as owner. */
  function Merged(row: Row, dto: UpdateProductDto, user: User): (r: Row)
    ensures r.id == row.id && r.user == Some(user)
    ensures r.details == MergeDetails(row.details, dto)
    ensures dto.images.None? ==> r.images == row.images
    ensures dto.images.Some? ==> Urls(r.images) == dto.images.value
  {
    UrlsOfImagesFrom(dto.images.GetOr([]));
    Row(row.id, MergeDetails(row.details, dto), if dto.images.Some? then ImagesFrom(dto.images.value) else row.images, Some(user))
  }

  /** The error raised inside the transaction, if any: deleting the images, saving (a fault or a unique violation), or committing. */
  function TxError(rows: seq<Row>, updated: Row, dto: UpdateProductDto, fault: Fault): (e: Option<DbError>)
    ensures e.None? <==>
      Violation(rows, updated.id, updated.details).None? &&
      FaultAt(fault, Save).None? && FaultAt(fault, Commit).None? &&
      (dto.images.None? || FaultAt(fault, DeleteImages).None?)
    ensures e.Some? ==> (fault.FailAt? && e.value == fault.error) || e == Violation(rows, updated.id, updated.details)
    ensures dto.images.Some? && FaultAt(fault, DeleteImages).Some? ==> e == Some(fault.error)
    ensures FaultAt(fault, Save).Some? ==> e == Some(fault.error)
    ensures FaultAt(fault, Commit).Some? && Violation(rows, updated.id, updated.details).None? ==> e == Some(fault.error)
    ensures (Violation(rows, updated.id, updated.details).Some? && FaultAt(fault, Save).None? &&
             (dto.images.None? || FaultAt(fault, DeleteImages).None?)) ==>
      e == Violation(rows, updated.id, updated.details)
  {
    if dto.images.Some? && FaultAt(fault, DeleteImages).Some? then FaultAt(fault, DeleteImages)
    else if FaultAt(fault, Save).Some? then FaultAt(fault, Save)
    else if Violation(rows, updated.id, updated.details).Some? then Violation(rows, updated.id, updated.details)
    else FaultAt(fault, Commit)
  }

  /** Whether `update` gets as far as creating its query runner. */
  predicate OpensRunner(rows: seq<Row>, id: string)
  {
    FindOne(rows, id).Ok? && IsUuid(id)
  }

  /**
   * `update`: NotFound before anything else when the id does not resolve; then
   * either the whole change (merged fields, replaced images, new owner) is
   * committed or none of it is. Failures before the transaction starts, and a
   * failure of the read that follows the commit, reach the caller untranslated.
   */
  function UpdateOutcome(rows: seq<Row>, id: string, dto: UpdateProductDto, user: User, fault: Fault): (o: Outcome<PlainProduct>)
    ensures FindOne(rows, id).Err? ==> o == Outcome(Err(NotFound(NotFoundMessage(id))), rows, [])
    ensures o.result.Err? && FaultAt(fault, Read).None? ==> o.rows == rows
    ensures o.result.Err? && o.rows != rows ==> fault.FailAt? && fault.step == Read && o.result.error == Unhandled(fault.error)
    ensures o.result.Ok? ==> OpensRunner(rows, id)
    ensures o.result.Ok? && fault.FailAt? ==> fault.step == DeleteImages && dto.images.None?
  {
    match FindOne(rows, id)
    case Err(e) => Outcome(Err(e), rows, [])
    case Ok(_) =>
      if !IsUuid(id) then Outcome(Err(Unhandled(InvalidUuid(id))), rows, [])
      else if FaultAt(fault, Connect).Some? then Outcome(Err(Unhandled(fault.error)), rows, [])
      else if FaultAt(fault, StartTransaction).Some? then Outcome(Err(Unhandled(fault.error)), rows, [])
      else
        var i := IndexOfId(rows, id).value;
        var updated := Merged(rows[i], dto, user);
        match TxError(rows, updated, dto, fault)
        case Some(e) => Outcome(Err(Translate(e)), rows, Logged(Some(e)))
        case None =>
          if FaultAt(fault, Read).Some? then Outcome(Err(Unhandled(fault.error)), rows[i := updated], [])
          else Outcome(Ok(ToPlain(Load(updated))), rows[i := updated], [])
  }

  /**
   * A committed update changes the one product with that id and no other: its
   * fields are merged, its images are the supplied URLs in order (the same as
   * before when none were supplied, none for an empty list), its owner is the
   * caller, and the result is its fresh plain projection. It keeps the keys valid.
   */
  lemma UpdateCommitted(rows: seq<Row>, i: nat, dto: UpdateProductDto, user: User, fault: Fault)
    requires ValidRows(rows) && i < |rows|
    requires UpdateOutcome(rows, rows[i].id, dto, user, fault).result.Ok?
    ensures var o := UpdateOutcome(rows, rows[i].id, dto, user, fault);
      ValidRows(o.rows) &&
      |o.rows| == |rows| &&
      (forall j :: 0 <= j < |rows| && j != i ==> o.rows[j] == rows[j]) &&
      o.rows[i].id == rows[i].id &&
      o.rows[i].details == MergeDetails(rows[i].details, dto) &&
      o.rows[i].user == Some(user) &&
      (dto.images.None? ==> o.rows[i].images == rows[i].images) &&
      (dto.images.Some? ==> Urls(o.rows[i].images) == dto.images.value) &&
      o.result.value == ToPlain(Load(o.rows[i])) &&
      o.result.value.images == Urls(o.rows[i].images)
  {
    var id := rows[i].id;
    IndexOfIdUnique(rows, i);
    var updated := Merged(rows[i], dto, user);
    var draft := Product(id, updated.details, if dto.images.Some? then Some(updated.images) else None, Some(user));
    assert Saved(rows, draft) == Ok(rows[i := updated]);
    SavedKeepsValid(rows, draft);
  }

  /**
   * An error inside the transaction rolls everything back: the rows are the ones
   * before the call, and the error is translated (BadRequest with the store's
   * detail for a unique violation, InternalServerError, logged, for any other).
   */
  lemma UpdateRolledBack(rows: seq<Row>, i: nat, dto: UpdateProductDto, user: User, fault: Fault, e: DbError)
    requires ValidRows(rows) && i < |rows|
    requires FaultAt(fault, Connect).None? && FaultAt(fault, StartTransaction).None?
    requires TxError(rows, Merged(rows[i], dto, user), dto, fault) == Some(e)
    ensures UpdateOutcome(rows, rows[i].id, dto, user, fault) == Outcome(Err(Translate(e)), rows, Logged(Some(e)))
  {
  }

  /**
   * An update of a stored product that no store step fails and that breaks no
   * unique constraint is committed.
   */
  lemma UpdateSucceeds(rows: seq<Row>, i: nat, dto: UpdateProductDto, user: User)
    requires ValidRows(rows) && i < |rows|
    requires Violation(rows, rows[i].id, MergeDetails(rows[i].details, dto)).None?
    ensures UpdateOutcome(rows, rows[i].id, dto, user, NoFault).result.Ok?
  {
    IndexOfIdUnique(rows, i);
  }

  /**
   * The read that follows the commit settles after the release and outside the
   * `try`: its failure reaches the caller untranslated, nothing is logged, and
   * the committed change stays.
   */
  lemma UpdateReadFails(rows: seq<Row>, i: nat, dto: UpdateProductDto, user: User, e: DbError)
    requires ValidRows(rows) && i < |rows|
    requires Violation(rows, rows[i].id, MergeDetails(rows[i].details, dto)).None?
    ensures UpdateOutcome(rows, rows[i].id, dto, user, FailAt(Read, e)) ==
      Outcome(Err(Unhandled(e)), rows[i := Merged(rows[i], dto, user)], [])
  {
    IndexOfIdUnique(rows, i);
  }

  /**
   * `connect` and `startTransaction` run before the `try`: their failure reaches
   * the caller untranslated, nothing is logged and nothing changes.
   */
  lemma UpdateFailsBeforeTry(rows: seq<Row>, i: nat, dto: UpdateProductDto, user: User, s: Step, e: DbError)
    requires ValidRows(rows) && i < |rows|
    requires s == Connect || s == StartTransaction
    ensures UpdateOutcome(rows, rows[i].id, dto, user, FailAt(s, e)) == Outcome(Err(Unhandled(e)), rows, [])
  {
    IndexOfIdUnique(rows, i);
  }

  /**
   * An id that resolves by title or slug but is not UUID-shaped is refused when
   * the record is preloaded by id: untranslated, nothing logged, nothing changed.
   */
  lemma UpdateByNonUuidTerm(rows: seq<Row>, id: string, dto: UpdateProductDto, user: User, fault: Fault)
    requires FindOne(rows, id).Ok? && !IsUuid(id)
    ensures UpdateOutcome(rows, id, dto, user, fault) == Outcome(Err(Unhandled(InvalidUuid(id))), rows, [])
  {
  }

  /** An update that supplies no field and no images only makes the caller the owner. */
  lemma UpdateNothingReassignsOwner(rows: seq<Row>, i: nat, user: User, fault: Fault)
    requires ValidRows(rows) && i < |rows|
    requires UpdateOutcome(rows, rows[i].id, EmptyUpdate, user, fault).result.Ok?
    ensures UpdateOutcome(rows, rows[i].id, EmptyUpdate, user, fault).rows == rows[i := rows[i].(user := Some(user))]
  {
  }

  /** Every update, whatever fails, leaves the table's keys valid. */
  lemma UpdateKeepsValid(rows: seq<Row>, id: string, dto: UpdateProductDto, user: User, fault: Fault)
    requires ValidRows(rows)
    ensures ValidRows(UpdateOutcome(rows, id, dto, user, fault).rows)
  {
    var o := UpdateOutcome(rows, id, dto, user, fault);
    if o.rows != rows {
      var i := IndexOfId(rows, id).value;
      var updated := Merged(rows[i], dto, user);
      var draft := Product(id, updated.details, if dto.images.Some? then Some(updated.images) else None, Some(user));
      assert Saved(rows, draft) == Ok(rows[i := updated]);
      SavedKeepsValid(rows, draft);
    }
  }

  // ----- remove -----

  /** `remove`: NotFound for a term that does not resolve; otherwise the product found is deleted and returned. */
  function RemoveOutcome(rows: seq<Row>, term: string, fault: Option<DbError>): (o: Outcome<Product>)
    ensures FindOne(rows, term).Err? ==> o == Outcome(Err(NotFound(NotFoundMessage(term))), rows, [])
    ensures o.result.Err? ==> o.rows == rows
    ensures FindOne(rows, term).Ok? && fault.None? ==> o.result == Ok(FindOne(rows, term).value)
    ensures FindOne(rows, term).Ok? && fault.Some? ==> o == Outcome(Err(Unhandled(fault.value)), rows, [])
  {
    match FindOne(rows, term)
    case Err(e) => Outcome(Err(e), rows, [])
    case Ok(p) =>
      if fault.Some? then Outcome(Err(Unhandled(fault.value)), rows, [])
      else Outcome(Ok(p), Without(rows, p.id), [])
  }

  /**
   * A removal takes out exactly the product it returns and keeps every other one;
   * removing by the same id again is NotFound.
   */
  lemma RemoveTakesOutOne(rows: seq<Row>, term: string, fault: Option<DbError>)
    requires ValidRows(rows)
    requires RemoveOutcome(rows, term, fault).result.Ok?
    ensures var o := RemoveOutcome(rows, term, fault);
      var p := o.result.value;
      ValidRows(o.rows) &&
      (exists j :: 0 <= j < |rows| && p.id == rows[j].id && p.details == rows[j].details && p.images == Some(rows[j].images)) &&
      (forall x :: x in o.rows <==> x in rows && x.id != p.id) &&
      (exists k :: 0 <= k < |rows| && rows[k].id == p.id && o.rows == rows[..k] + rows[k + 1..]) &&
      RemoveOutcome(o.rows, p.id, fault).result == Err(NotFound(NotFoundMessage(p.id)))
  {
    var o := RemoveOutcome(rows, term, fault);
    var p := o.result.value;
    WithoutKeepsValid(rows, p.id);
    var j :| 0 <= j < |rows| && p.id == rows[j].id;
    WithoutAt(rows, j);
    assert IsUuid(p.id);
    forall k | 0 <= k < |o.rows| ensures o.rows[k].id != p.id {
      assert o.rows[k] in o.rows;
    }
  }

  /** `removeAllProducts`: every product goes, and the count of deleted rows is returned. */
  function RemoveAllOutcome(rows: seq<Row>, fault: Option<DbError>): (o: Outcome<nat>)
    ensures o.result.Ok? ==> o.result.value == |rows| && o.rows == []
    ensures o.result.Err? ==> fault.Some? && o.rows == rows && o.result.error == Translate(fault.value)
    ensures fault.Some? ==> o == Outcome(Err(Translate(fault.value)), rows, Logged(fault))
    ensures fault.None? ==> o.result.Ok?
  {
    if fault.Some? then Outcome(Err(Translate(fault.value)), rows, Logged(fault))
    else Outcome(Ok(|rows|), [], [])
  }

  /** After a successful `removeAllProducts` every page of `findAll` is empty. */
  lemma RemoveAllThenFindAll(rows: seq<Row>, fault: Option<DbError>, pagination: PaginationDto)
    requires RemoveAllOutcome(rows, fault).result.Ok?
    ensures FindAll(RemoveAllOutcome(rows, fault).rows, pagination) == []
  {
  }

  // ----- the service object -----

  class ProductsService {
    const db: Database
    /** What the service's logger has recorded, oldest first. */
    var log: seq<DbError>

    ghost predicate Valid()
      reads this, db
    {
      db.Valid()
    }

    constructor (db: Database)
      requires db.Valid()
      ensures Valid() && this.db == db && log == []
    {
      this.db := db;
      log := [];
    }

    /** `handlerDBExceptions`: logs an unexpected error and gives the exception to throw. */
    method HandlerDbExceptions(e: DbError) returns (err: ServiceError)
      modifies this
      ensures err == Translate(e)
      ensures log == old(log) + Logged(Some(e))
    {
      if e.code == UniqueViolation {
        return BadRequest(e.detail);
      }
      log := log + [e];
      err := InternalServerError(InternalErrorMessage);
    }

    method Create(dto: CreateProductDto, user: User, newId: string, fault: Option<DbError>)
      returns (r: Result<Product, ServiceError>)
      requires Valid() && IsUuid(newId)
      requires forall j :: 0 <= j < |db.rows| ==> db.rows[j].id != newId
      modifies this, db
      ensures Valid()
      ensures var o := CreateOutcome(old(db.rows), dto, user, newId, fault);
        r == o.result && db.rows == o.rows && log == old(log) + o.logged
    {
      var product := Build(dto, newId, user);
      var err := db.Save(product, fault);
      if err.Some? {
        var e := HandlerDbExceptions(err.value);
        r := Err(e);
      } else {
        r := Ok(product);
      }
    }

    method Update(id: string, dto: UpdateProductDto, user: User, fault: Fault)
      returns (r: Result<PlainProduct, ServiceError>, runner: QueryRunner?)
      requires Valid()
      modifies this, db
      ensures Valid()
      ensures var o := UpdateOutcome(old(db.rows), id, dto, user, fault);
        r == o.result && db.rows == o.rows && log == old(log) + o.logged
      ensures runner == null <==> !OpensRunner(old(db.rows), id)
      ensures runner != null ==> fresh(runner) && runner.db == db
      ensures runner != null ==>
        var started := FaultAt(fault, Connect).None? && FaultAt(fault, StartTransaction).None?;
        runner.releases == (if started then 1 else 0) &&
        (started ==> !runner.connected && runner.snapshot == old(db.rows)) &&
        (started ==> (runner.phase == RolledBack <==> r.Err? && (r.error.BadRequest? || r.error.InternalServerError?))) &&
        (started ==> (runner.phase == Committed <==> !(r.Err? && (r.error.BadRequest? || r.error.InternalServerError?))))
    {
      ghost var rows0 := db.rows;
      var found := FindOne(db.rows, id);
      if found.Err? {
        return Err(found.error), null;
      }
      if !IsUuid(id) {
        // preload compares the uuid id column with the term before any runner exists
        return Err(Unhandled(InvalidUuid(id))), null;
      }
      var i := IndexOfId(db.rows, id).value;
      IndexOfIdUnique(db.rows, i);
      ghost var updated := Merged(rows0[i], dto, user);

      runner := new QueryRunner(db);
      var err := runner.Connect(FaultAt(fault, Connect));
      if err.Some? {
        return Err(Unhandled(err.value)), runner;
      }
      err := runner.StartTransaction(FaultAt(fault, StartTransaction));
      if err.Some? {
        return Err(Unhandled(err.value)), runner;
      }

      // try
      var failure := Transact(runner, i, dto, user, fault);
      if failure.Some? {
        // catch
        runner.RollbackTransaction();
        var e := HandlerDbExceptions(failure.value);
        // finally
        runner.Release();
        r := Err(e);
      } else {
        // finally: the release happens before the returned read settles
        runner.Release();
        assert db.rows == rows0[i := updated];
        var read := FaultAt(fault, Read);
        if read.Some? {
          r := Err(Unhandled(read.value));
        } else {
          IndexOfIdUnique(db.rows, i);
          r := FindOnePlain(db.rows, id);
        }
      }
    }

    /**
     * The body of `update`'s try block: replace the images when they are
     * supplied, make the caller the owner, save, commit. The first failure stops
     * it with the transaction still open.
     */
    method Transact(runner: QueryRunner, i: nat, dto: UpdateProductDto, user: User, fault: Fault)
      returns (failure: Option<DbError>)
      requires Valid() && runner.db == db && runner.phase == Active && runner.snapshot == db.rows
      requires i < |db.rows| && IsUuid(db.rows[i].id)
      modifies runner, db
      ensures Valid() && runner.db == db
      ensures runner.snapshot == old(db.rows) && runner.connected == old(runner.connected) && runner.releases == old(runner.releases)
      ensures failure == TxError(old(db.rows), Merged(old(db.rows)[i], dto, user), dto, fault)
      ensures failure.Some? ==> runner.phase == Active
      ensures failure.None? ==> runner.phase == Committed && db.rows == old(db.rows)[i := Merged(old(db.rows)[i], dto, user)]
    {
      ghost var rows0 := db.rows;
      var id := db.rows[i].id;
      // the record preload gives: stored columns merged with the supplied fields, images not loaded
      var product := Product(id, MergeDetails(db.rows[i].details, dto), None, db.rows[i].user);
      failure := None;
      if dto.images.Some? {
        failure := runner.DeleteImages(id, FaultAt(fault, DeleteImages));
        if failure.None? {
          product := product.(images := Some(ImagesFrom(dto.images.value)));
        }
      }
      if failure.None? {
        product := product.(user := Some(user));
        SaveAfterDelete(rows0, i, dto, user, db.rows, product);
        failure := runner.Save(product, FaultAt(fault, Save));
      }
      if failure.None? {
        failure := runner.CommitTransaction(FaultAt(fault, Commit));
      }
    }

    method Remove(term: string, fault: Option<DbError>) returns (r: Result<Product, ServiceError>)
      requires Valid()
      modifies db
      ensures Valid()
      ensures var o := RemoveOutcome(old(db.rows), term, fault);
        r == o.result && db.rows == o.rows
    {
      var found := FindOne(db.rows, term);
      if found.Err? {
        return Err(found.error);
      }
      var err := db.Remove(found.value.id, fault);
      if err.Some? {
        return Err(Unhandled(err.value));
      }
      r := Ok(found.value);
    }

    method RemoveAllProducts(fault: Option<DbError>) returns (r: Result<nat, ServiceError>)
      requires Valid()
      modifies this, db
      ensures Valid()
      ensures var o := RemoveAllOutcome(old(db.rows), fault);
        r == o.result && db.rows == o.rows && log == old(log) + o.logged
    {
      var deleted := db.DeleteAll(fault);
      if deleted.Err? {
        var e := HandlerDbExceptions(deleted.error);
        return Err(e);
      }
      r := Ok(deleted.value);
    }
  }

  /** Two row lists with the same ids and columns at every position, differing at most in images. */
  predicate SameKeys(r1: seq<Row>, r2: seq<Row>)
  {
    |r1| == |r2| && forall j :: 0 <= j < |r1| ==> r1[j].id == r2[j].id && r1[j].details == r2[j].details
  }

  lemma SameKeysSameAnswers(r1: seq<Row>, r2: seq<Row>, id: string, d: Details)
    requires SameKeys(r1, r2)
    ensures Violation(r1, id, d) == Violation(r2, id, d)
    ensures IndexOfId(r1, id) == IndexOfId(r2, id)
  {
    var k1, k2 := IndexOfId(r1, id), IndexOfId(r2, id);
    if k1.Some? && k2.Some? {
      assert r2[k2.value].id == id && r1[k1.value].id == id;
    }
  }

  /**
   * Inside the transaction, saving the draft over the rows left by the image
   * delete (if any) writes exactly the merged row, or is refused by the same
   * unique violation as on the original rows.
   */
  lemma SaveAfterDelete(rows: seq<Row>, i: nat, dto: UpdateProductDto, user: User, current: seq<Row>, draft: Product)
    requires ValidRows(rows) && i < |rows|
    requires current == (if dto.images.Some? then DeleteImagesOf(rows, rows[i].id) else rows)
    requires draft == Product(rows[i].id, MergeDetails(rows[i].details, dto),
      if dto.images.Some? then Some(ImagesFrom(dto.images.value)) else None, Some(user))
    ensures Violation(current, draft.id, draft.details) == Violation(rows, draft.id, draft.details)
    ensures Saved(current, draft).Ok? ==> Saved(current, draft).value == rows[i := Merged(rows[i], dto, user)]
  {
    IndexOfIdUnique(rows, i);
    assert SameKeys(current, rows);
    SameKeysSameAnswers(current, rows, draft.id, draft.details);
    if Saved(current, draft).Ok? {
      var saved := Saved(current, draft).value;
      assert saved == current[i := SavedRow(draft, current[i])];
      assert SavedRow(draft, current[i]) == Merged(rows[i], dto, user);
      forall j | 0 <= j < |rows| && j != i ensures current[j] == rows[j] {
        assert rows[j].id != rows[i].id;
      }
    }
  }
}
