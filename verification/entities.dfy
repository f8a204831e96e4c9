/**
 * The product catalog's entities, input records and errors.
 *
 * A `Row` is a product as the store holds it: the products-table columns, the
 * ordered image rows that point at it, and its owner (a nullable reference). A
 * `Product` is the object the service works with in memory; its `images` and
 * its `user` are absent when the relation was not loaded or not assigned. A
 * `PlainProduct` is what the service hands back to callers: the same fields with
 * each image reduced to its bare URL.
 */
module Entities {
  import opened Wrappers

  /** The caller who creates or updates a product; the catalog only stores the reference. */
  datatype User = User(id: string)

  /** One row of the image table; it exists only through its product. */
  datatype ProductImage = ProductImage(url: string)

  /** The product columns a caller may set (the price is kept as an integer). */
  datatype Details = Details(
    title: string,
    slug: string,
    price: int,
    description: Option<string>,
    stock: int,
    tags: seq<string>)

  datatype Row = Row(id: string, details: Details, images: seq<ProductImage>, user: Option<User>)

  datatype Product = Product(id: string, details: Details, images: Option<seq<ProductImage>>, user: Option<User>)

  datatype PlainProduct = PlainProduct(id: string, details: Details, images: seq<string>, user: Option<User>)

  /** Input of `create`: the product columns and an optional list of image URLs. */
  datatype CreateProductDto = CreateProductDto(details: Details, images: Option<seq<string>>)

  /** Input of `update`: every field optional; a present `images`, even empty, replaces the images. */
  datatype UpdateProductDto = UpdateProductDto(
    title: Option<string>,
    slug: Option<string>,
    price: Option<int>,
    description: Option<string>,
    stock: Option<int>,
    tags: Option<seq<string>>,
    images: Option<seq<string>>)

  datatype PaginationDto = PaginationDto(limit: Option<nat>, offset: Option<nat>)

  /** An error raised by the store: a PostgreSQL SQLSTATE code and the server's detail text. */
  datatype DbError = DbError(code: string, detail: string)

  /**
   * What a service call can end with: the three HTTP exceptions the service throws,
   * or a store error that reaches the caller untranslated.
   */
  datatype ServiceError =
    | NotFound(message: string)
    | BadRequest(message: string)
    | InternalServerError(message: string)
    | Unhandled(cause: DbError)

  const UniqueViolation: string := "23505"
  const InternalErrorMessage: string := "Unexpected error, check server logs"

  /** The NotFound message names the term that did not resolve. */
  function NotFoundMessage(term: string): (m: string)
    ensures |m| == |term| + 28
    ensures m[..18] == "Product with term " && m[18..18 + |term|] == term
    ensures m[18 + |term|..] == " not found"
  {
    "Product with term " + term + " not found"
  }

  /** `images.map(url => imageRepository.create({ url }))`: one image per URL, in order. */
  function ImagesFrom(urls: seq<string>): (r: seq<ProductImage>)
    ensures |r| == |urls|
    ensures forall k :: 0 <= k < |r| ==> r[k].url == urls[k]
  {
    seq(|urls|, k requires 0 <= k < |urls| => ProductImage(urls[k]))
  }

  /** `images.map(image => image.url)`: the URLs of the images, in order. */
  function Urls(images: seq<ProductImage>): (r: seq<string>)
    ensures |r| == |images|
    ensures forall k :: 0 <= k < |r| ==> r[k] == images[k].url
  {
    seq(|images|, k requires 0 <= k < |images| => images[k].url)
  }

  /** Turning URLs into images and reading the URLs back gives the same list. */
  lemma UrlsOfImagesFrom(urls: seq<string>)
    ensures Urls(ImagesFrom(urls)) == urls
  {
  }

  /** A product loaded by a `find` call: both relations are eager, so its images and its owner come with it. */
  function Load(row: Row): Product
  {
    Product(row.id, row.details, Some(row.images), row.user)
  }

  /**
   * A product loaded by a query builder that joins only the images: eager
   * relations are not applied to query builders, so the owner is not loaded.
   */
  function LoadWithImages(row: Row): Product
  {
    Product(row.id, row.details, Some(row.images), None)
  }

  /**
   * The plain projection: every field but `images` kept, the images reduced to
   * their URLs in the same order, and no images read as the empty list.
   */
  function ToPlain(p: Product): (r: PlainProduct)
    ensures r.id == p.id && r.details == p.details && r.user == p.user
    ensures p.images.None? ==> r.images == []
    ensures p.images.Some? ==> |r.images| == |p.images.value|
    ensures p.images.Some? ==> forall k :: 0 <= k < |r.images| ==> r.images[k] == p.images.value[k].url
  {
    PlainProduct(p.id, p.details, Urls(p.images.GetOr([])), p.user)
  }

  /**
   * The product `create` builds: the given columns, one image per input URL in
   * order (none when the list is omitted), and the caller as owner.
   */
  function Build(dto: CreateProductDto, id: string, user: User): (p: Product)
    ensures p.id == id && p.details == dto.details && p.user == Some(user)
    ensures p.images.Some?
    ensures Urls(p.images.value) == dto.images.GetOr([])
  {
    var urls := dto.images.GetOr([]);
    UrlsOfImagesFrom(urls);
    Product(id, dto.details, Some(ImagesFrom(urls)), Some(user))
  }

  /** `preload({ id, ...toUpdate })`: the supplied fields replace the stored ones, the others stay. */
  function MergeDetails(d: Details, dto: UpdateProductDto): (r: Details)
    ensures r.title == if dto.title.Some? then dto.title.value else d.title
    ensures r.slug == if dto.slug.Some? then dto.slug.value else d.slug
    ensures r.price == if dto.price.Some? then dto.price.value else d.price
    ensures r.description == if dto.description.Some? then dto.description else d.description
    ensures r.stock == if dto.stock.Some? then dto.stock.value else d.stock
    ensures r.tags == if dto.tags.Some? then dto.tags.value else d.tags
  {
    Details(
      dto.title.GetOr(d.title),
      dto.slug.GetOr(d.slug),
      dto.price.GetOr(d.price),
      if dto.description.Some? then dto.description else d.description,
      dto.stock.GetOr(d.stock),
      dto.tags.GetOr(d.tags))
  }

  const EmptyUpdate: UpdateProductDto := UpdateProductDto(None, None, None, None, None, None, None)

  /** An update that supplies no field leaves the columns as they are. */
  lemma MergeNothing(d: Details)
    ensures MergeDetails(d, EmptyUpdate) == d
  {
  }

  /**
   * `handlerDBExceptions`: a unique violation (SQLSTATE 23505) becomes BadRequest
   * carrying the store's detail; every other error becomes InternalServerError
   * with a fixed message that leaks nothing of the cause.
   */
  function Translate(e: DbError): (r: ServiceError)
    ensures r.BadRequest? <==> e.code == UniqueViolation
    ensures r.BadRequest? ==> r.message == e.detail
    ensures !r.BadRequest? ==> r == InternalServerError(InternalErrorMessage)
  {
    if e.code == UniqueViolation then BadRequest(e.detail) else InternalServerError(InternalErrorMessage)
  }

  /** What `handlerDBExceptions` writes to the log for a raised error: every error but a unique violation. */
  function Logged(e: Option<DbError>): (r: seq<DbError>)
    ensures r == [] || (e.Some? && r == [e.value] && e.value.code != UniqueViolation)
    ensures e.Some? && e.value.code != UniqueViolation ==> r == [e.value]
  {
    if e.Some? && e.value.code != UniqueViolation then [e.value] else []
  }
}
