/** Controllers/ProductController.cs: the paged catalogue, a single product,
    and the creation, update and deletion of products with their field checks
    and image-extension rule. */
module ProductController {
  import opened Common
  import opened Text
  import opened Models
  import opened Data

  // ---------------------------------------------------------------------------
  // Reading the catalogue

  /** A catalogue entry as GET api/products answers it. */
  datatype ProductView = ProductView(
    productId: int,
    productName: string,
    price: Money,
    quantity: int,
    isAvailable: bool,
    lastUpdated: Timestamp,
    description: string,
    imageUrl: Option<string>,
    categoryId: int)

  /** The page number actually used: anything below 1 becomes 1. */
  function NormalizePage(page: int): (r: int)
    ensures r >= 1
    ensures page >= 1 ==> r == page
    ensures page <= 0 ==> r == 1
  {
    if page <= 0 then 1 else page
  }

  /** The page size actually used: anything outside 1..100 becomes 10. */
  function NormalizeSize(size: int): (r: int)
    ensures 1 <= r <= 100
    ensures 1 <= size <= 100 ==> r == size
    ensures size <= 0 || size > 100 ==> r == 10
  {
    if size <= 0 || size > 100 then 10 else size
  }

  /** The number of rows before page `page` of size `size`. */
  function SkipCount(page: int, size: int): (r: nat)
    requires page >= 1 && size >= 1
  {
    (page - 1) * size
  }

  /** `Skip(skip).Take(size)`: the contiguous run of at most `size` rows that
      starts at row `skip`. */
  function PageOf<T>(rows: seq<T>, skip: nat, size: nat): (r: seq<T>)
    ensures |r| <= size
    ensures |r| == if skip >= |rows| then 0 else Min(size, |rows| - skip)
    ensures forall k :: 0 <= k < |r| ==> skip + k < |rows| && r[k] == rows[skip + k]
  {
    if skip >= |rows| then [] else rows[skip..Min(skip + size, |rows|)]
  }

  /** Pages 1 to `n` of size `size`, one after the other. */
  function FirstPages<T>(rows: seq<T>, size: nat, n: nat): seq<T>
  {
    if n == 0 then [] else FirstPages(rows, size, n - 1) + PageOf(rows, (n - 1) * size, size)
  }

  /** The page that starts at row `skip` continues the rows before it. */
  lemma PageContinues<T>(rows: seq<T>, skip: nat, size: nat)
    ensures rows[..Min(skip, |rows|)] + PageOf(rows, skip, size) == rows[..Min(skip + size, |rows|)]
  {
    if skip < |rows| {
      assert rows[..Min(skip + size, |rows|)] == rows[..skip] + rows[skip..Min(skip + size, |rows|)];
    }
  }

  /** Paging neither skips nor repeats a row: the first `n` pages together are
      exactly the first `n * size` rows (or all rows, if there are fewer). */
  lemma {:induction false} FirstPagesArePrefix<T>(rows: seq<T>, size: nat, n: nat)
    ensures FirstPages(rows, size, n) == rows[..Min(n * size, |rows|)]
  {
    if n > 0 {
      FirstPagesArePrefix(rows, size, n - 1);
      PageContinues(rows, (n - 1) * size, size);
      assert (n - 1) * size + size == n * size;
    }
  }

  /** The link the catalogue shows for a stored image path: none for a null or
      empty path, otherwise the request origin (scheme and host), a slash, and
      the path with every back slash turned into a forward slash. */
  function ImageUrl(origin: string, image: Option<string>): (r: Option<string>)
    ensures r.None? <==> image.None? || |image.value| == 0
    ensures r.Some? ==>
              && |r.value| == |origin| + 1 + |image.value|
              && r.value[..|origin| + 1] == origin + "/"
              && '\\' !in r.value[|origin| + 1..]
              && (forall k :: 0 <= k < |image.value| && image.value[k] != '\\' ==>
                    r.value[|origin| + 1 + k] == image.value[k])
              && (forall k :: 0 <= k < |image.value| && image.value[k] == '\\' ==>
                    r.value[|origin| + 1 + k] == '/')
  {
    if image.None? || |image.value| == 0 then None
    else
      var tail := ReplaceBackslashes(image.value);
      assert (origin + "/" + tail)[|origin| + 1..] == tail;
      Some(origin + "/" + tail)
  }

  function AsView(origin: string, p: Product): ProductView {
    ProductView(p.productId, p.productName, p.price, p.quantity, p.isAvailable, p.lastUpdated,
                p.description, ImageUrl(origin, p.image), p.categoryId)
  }

  /** GET api/products?page=&size=: one page of the catalogue, in table order,
      after the page number and size are normalised. */
  function GetAllProducts(products: seq<Product>, page: int, size: int, origin: string): (r: seq<ProductView>)
    ensures |r| <= NormalizeSize(size) <= 100
    ensures var rows := PageOf(products, SkipCount(NormalizePage(page), NormalizeSize(size)), NormalizeSize(size));
            |r| == |rows| && forall k :: 0 <= k < |r| ==> r[k] == AsView(origin, rows[k])
  {
    var rows := PageOf(products, SkipCount(NormalizePage(page), NormalizeSize(size)), NormalizeSize(size));
    seq(|rows|, k requires 0 <= k < |rows| => AsView(origin, rows[k]))
  }

  /** GET api/products/{id}. */
  function GetProduct(products: seq<Product>, id: int, origin: string): (r: Result<ProductView>)
    ensures r.Failure? <==> forall k :: 0 <= k < |products| ==> products[k].productId != id
    ensures r.Failure? ==> r.status == NotFound
    ensures r.Success? ==> r.value.productId == id
                            && r.value == AsView(origin, products[FindProduct(products, id).value])
  {
    match FindProduct(products, id)
    case None => Failure(NotFound)
    case Some(k) => Success(AsView(origin, products[k]))
  }

  // ---------------------------------------------------------------------------
  // Image files

  /** An uploaded form file: the client's file name and the length in bytes. */
  datatype Upload = Upload(fileName: string, length: int)

  predicate IsSeparator(c: char) { c == '/' || c == '\\' }

  /** The position of the last '.' among the first `i` characters that comes
      after every directory separator among them. */
  function LastDot(name: string, i: nat): (r: Option<nat>)
    requires i <= |name|
    ensures r.Some? ==> r.value < i && name[r.value] == '.'
    ensures r.Some? ==> forall k :: r.value < k < i ==> name[k] != '.' && !IsSeparator(name[k])
    ensures r.None? ==> forall k :: 0 <= k < i && name[k] == '.' ==> exists s :: k < s < i && IsSeparator(name[s])
  {
    if i == 0 then None
    else if name[i - 1] == '.' then Some(i - 1)
    else if IsSeparator(name[i - 1]) then None
    else LastDot(name, i - 1)
  }

  /** `Path.GetExtension`: from the last '.' of the last path segment to the end,
      or empty when that segment has no '.' or ends with it. */
  function GetExtension(name: string): (r: string)
    ensures |r| <= |name|
    ensures r != "" ==> |r| >= 2 && r[0] == '.' && r == name[|name| - |r|..]
    ensures r != "" ==> forall k :: 1 <= k < |r| ==> r[k] != '.' && !IsSeparator(r[k])
  {
    match LastDot(name, |name|)
    case None => ""
    case Some(k) => if k == |name| - 1 then "" else name[k..]
  }

  /** A '.' at `d` followed, up to position `i`, by no '.' and no separator
      is the dot `LastDot` finds. */
  lemma {:induction false} LastDotAfterTail(name: string, d: nat, i: nat)
    requires d < i <= |name| && name[d] == '.'
    requires forall k :: d < k < i ==> name[k] != '.' && !IsSeparator(name[k])
    ensures LastDot(name, i) == Some(d)
  {
    if i - 1 != d {
      LastDotAfterTail(name, d, i - 1);
    }
  }

  /** A name ending in '.' and a nonempty tail free of dots and separators has
      that '.' and tail as its extension. */
  lemma ExtensionOfSuffix(stem: string, tail: string)
    requires |tail| > 0 && forall k :: 0 <= k < |tail| ==> tail[k] != '.' && !IsSeparator(tail[k])
    ensures GetExtension(stem + "." + tail) == "." + tail
  {
    var name := stem + "." + tail;
    forall k | |stem| < k < |name| ensures name[k] != '.' && !IsSeparator(name[k]) {
      assert name[k] == tail[k - |stem| - 1];
    }
    LastDotAfterTail(name, |stem|, |name|);
    assert name[|stem|..] == "." + tail;
  }

  const AllowedExtensions: set<string> := {".png", ".jpg", ".jpeg"}

  /** The lower-cased extension of the file name is one of ".png", ".jpg" and
      ".jpeg". */
  predicate IsAllowedExtension(fileName: string) {
    ToLower(GetExtension(fileName)) in AllowedExtensions
  }

  /** An accepted file name ends, ignoring case, with ".png", ".jpg" or ".jpeg". */
  lemma {:induction false} AllowedNameEndsWithAllowedExtension(fileName: string)
    requires IsAllowedExtension(fileName)
    ensures exists e :: e in AllowedExtensions && |e| <= |fileName|
                        && ToLower(fileName[|fileName| - |e|..]) == e
  {
    var ext := GetExtension(fileName);
    var e := ToLower(ext);
    assert |e| == |ext| > 0;
    assert fileName[|fileName| - |e|..] == ext;
  }

  /** A file name that ends, ignoring case, with ".png", ".jpg" or ".jpeg" is
      accepted: the converse of `AllowedNameEndsWithAllowedExtension`. */
  lemma {:induction false} NameEndingInAllowedExtensionIsAllowed(fileName: string, e: string)
    requires e in AllowedExtensions && |e| <= |fileName|
    requires ToLower(fileName[|fileName| - |e|..]) == e
    ensures IsAllowedExtension(fileName)
  {
    var n := |fileName| - |e|;
    var ext := fileName[n..];
    assert e[0] == '.' && forall k :: 1 <= k < |e| ==> IsLowerLetter(e[k]);
    assert ToLowerChar(ext[0]) == '.';
    var stem, tail := fileName[..n], ext[1..];
    forall k | 0 <= k < |tail| ensures tail[k] != '.' && !IsSeparator(tail[k]) {
      assert ToLowerChar(tail[k]) == e[k + 1];
    }
    assert fileName == stem + "." + tail;
    ExtensionOfSuffix(stem, tail);
    assert GetExtension(fileName) == ext;
  }

  /** The stored path of an uploaded image: a fresh name (a GUID) followed by
      the lower-cased extension, under images/products. */
  function ImagePath(guid: string, fileName: string): (r: string)
    ensures r == "images/products/" + guid + ToLower(GetExtension(fileName))
    ensures IsAllowedExtension(fileName) ==>
              exists e :: e in AllowedExtensions && |e| <= |r| && r[|r| - |e|..] == e
  {
    var prefix := "images/products/" + guid;
    var e := ToLower(GetExtension(fileName));
    assert (prefix + e)[|prefix + e| - |e|..] == e;
    prefix + e
  }

  // ---------------------------------------------------------------------------
  // Field checks

  /** The form fields of POST api/products and PUT api/products/{id}. */
  datatype ProductForm = ProductForm(
    productName: string,
    description: string,
    price: Money,
    quantity: int,
    isAvailable: bool,
    categoryId: int,
    supplierId: Option<int>,
    file: Option<Upload>)

  /** The checks an action makes, each naming the rejection it answers. */
  datatype ProductCheck =
    | NameRequired
    | DescriptionRequired
    | PriceNotPositive
    | QuantityNegative
    | UnknownCategory
    | UploadExtension   // a file with content must have an allowed extension
    | FileExtension     // any file must have an allowed extension

  /** The form fails check `c`. */
  predicate Fails(c: ProductCheck, form: ProductForm, categories: seq<Category>) {
    match c
    case NameRequired => IsBlank(form.productName)
    case DescriptionRequired => IsBlank(form.description)
    case PriceNotPositive => form.price <= 0.0
    case QuantityNegative => form.quantity < 0
    case UnknownCategory => !CategoryExists(categories, form.categoryId)
    case UploadExtension => form.file.Some? && form.file.value.length > 0 && !IsAllowedExtension(form.file.value.fileName)
    case FileExtension => form.file.Some? && !IsAllowedExtension(form.file.value.fileName)
  }

  /** The checks of `CreateProduct`, in the order it makes them. */
  const CreateChecks: seq<ProductCheck> :=
    [NameRequired, DescriptionRequired, PriceNotPositive, QuantityNegative, UnknownCategory, UploadExtension]

  /** The checks of `UpdateProduct`, in the order it makes them: no description
      check, and the extension is checked for every file. */
  const UpdateChecks: seq<ProductCheck> :=
    [NameRequired, PriceNotPositive, QuantityNegative, UnknownCategory, FileExtension]

  /** The first check in `checks` that the form fails, if any. */
  function FirstFailure(checks: seq<ProductCheck>, form: ProductForm, categories: seq<Category>)
    : (r: Option<ProductCheck>)
    ensures r.None? <==> forall k :: 0 <= k < |checks| ==> !Fails(checks[k], form, categories)
    ensures r.Some? ==> r.value in checks && Fails(r.value, form, categories)
  {
    if |checks| == 0 then None
    else if Fails(checks[0], form, categories) then Some(checks[0])
    else FirstFailure(checks[1..], form, categories)
  }

  /** Checking `c` and then `rest`. */
  lemma FirstFailureCons(c: ProductCheck, rest: seq<ProductCheck>, form: ProductForm, categories: seq<Category>)
    ensures FirstFailure([c] + rest, form, categories)
         == if Fails(c, form, categories) then Some(c) else FirstFailure(rest, form, categories)
  {
    assert ([c] + rest)[1..] == rest;
  }

  /** The rejection `CreateProduct` answers: each check rejects exactly the
      forms that fail it and pass every earlier check, and a form passing all
      six is accepted. */
  lemma {:induction false} CreateCheckOrder(form: ProductForm, categories: seq<Category>)
    ensures var r, f, c := FirstFailure(CreateChecks, form, categories), form, categories;
      && (r == Some(NameRequired) <==> Fails(NameRequired, f, c))
      && (r == Some(DescriptionRequired) <==> !Fails(NameRequired, f, c) && Fails(DescriptionRequired, f, c))
      && (r == Some(PriceNotPositive) <==>
            !Fails(NameRequired, f, c) && !Fails(DescriptionRequired, f, c) && Fails(PriceNotPositive, f, c))
      && (r == Some(QuantityNegative) <==>
            !Fails(NameRequired, f, c) && !Fails(DescriptionRequired, f, c) && !Fails(PriceNotPositive, f, c)
            && Fails(QuantityNegative, f, c))
      && (r == Some(UnknownCategory) <==>
            !Fails(NameRequired, f, c) && !Fails(DescriptionRequired, f, c) && !Fails(PriceNotPositive, f, c)
            && !Fails(QuantityNegative, f, c) && Fails(UnknownCategory, f, c))
      && (r == Some(UploadExtension) <==>
            !Fails(NameRequired, f, c) && !Fails(DescriptionRequired, f, c) && !Fails(PriceNotPositive, f, c)
            && !Fails(QuantityNegative, f, c) && !Fails(UnknownCategory, f, c) && Fails(UploadExtension, f, c))
  {
    var f, c := form, categories;
    FirstFailureCons(UploadExtension, [], f, c);
    FirstFailureCons(UnknownCategory, [UploadExtension], f, c);
    FirstFailureCons(QuantityNegative, [UnknownCategory, UploadExtension], f, c);
    FirstFailureCons(PriceNotPositive, [QuantityNegative, UnknownCategory, UploadExtension], f, c);
    FirstFailureCons(DescriptionRequired, [PriceNotPositive, QuantityNegative, UnknownCategory, UploadExtension], f, c);
    FirstFailureCons(NameRequired, [DescriptionRequired, PriceNotPositive, QuantityNegative, UnknownCategory,
                                    UploadExtension], f, c);
    assert FirstFailure([], f, c) == None;
  }

  /** The rejection `UpdateProduct` answers, in the same terms. */
  lemma {:induction false} UpdateCheckOrder(form: ProductForm, categories: seq<Category>)
    ensures var r, f, c := FirstFailure(UpdateChecks, form, categories), form, categories;
      && (r == Some(NameRequired) <==> Fails(NameRequired, f, c))
      && (r == Some(PriceNotPositive) <==> !Fails(NameRequired, f, c) && Fails(PriceNotPositive, f, c))
      && (r == Some(QuantityNegative) <==>
            !Fails(NameRequired, f, c) && !Fails(PriceNotPositive, f, c) && Fails(QuantityNegative, f, c))
      && (r == Some(UnknownCategory) <==>
            !Fails(NameRequired, f, c) && !Fails(PriceNotPositive, f, c) && !Fails(QuantityNegative, f, c)
            && Fails(UnknownCategory, f, c))
      && (r == Some(FileExtension) <==>
            !Fails(NameRequired, f, c) && !Fails(PriceNotPositive, f, c) && !Fails(QuantityNegative, f, c)
            && !Fails(UnknownCategory, f, c) && Fails(FileExtension, f, c))
  {
    var f, c := form, categories;
    FirstFailureCons(FileExtension, [], f, c);
    FirstFailureCons(UnknownCategory, [FileExtension], f, c);
    FirstFailureCons(QuantityNegative, [UnknownCategory, FileExtension], f, c);
    FirstFailureCons(PriceNotPositive, [QuantityNegative, UnknownCategory, FileExtension], f, c);
    FirstFailureCons(NameRequired, [PriceNotPositive, QuantityNegative, UnknownCategory, FileExtension], f, c);
    assert FirstFailure([], f, c) == None;
  }

  // ---------------------------------------------------------------------------
  // POST, PUT and DELETE api/products

  /** The product `CreateProduct` stores: the form's fields, supplier 1, the
      moment of the save, and the path of the uploaded image when a file with
      content was sent. */
  function NewProduct(form: ProductForm, guid: string, utcNow: Timestamp): (r: Product)
    ensures r.supplierId == Some(1) && r.lastUpdated == utcNow
    ensures r.productName == form.productName && r.price == form.price && r.quantity == form.quantity
    ensures r.description == form.description && r.isAvailable == form.isAvailable
    ensures r.categoryId == form.categoryId
    ensures r.image.Some? <==> form.file.Some? && form.file.value.length > 0
    ensures r.image.Some? ==> r.image.value == ImagePath(guid, form.file.value.fileName)
  {
    Product(0, form.categoryId, Some(1), form.productName, form.price, form.quantity, form.description,
            form.isAvailable, utcNow,
            if form.file.Some? && form.file.value.length > 0 then Some(ImagePath(guid, form.file.value.fileName))
            else None)
  }

  /** The checks of POST api/products, made one after the other in their
      fixed order; the first that fails is the rejection answered. */
  method CreateRejection(form: ProductForm, categories: seq<Category>) returns (r: Option<ProductCheck>)
    ensures r == FirstFailure(CreateChecks, form, categories)
  {
    CreateCheckOrder(form, categories);
    if Fails(NameRequired, form, categories) {
      return Some(NameRequired);
    }
    if Fails(DescriptionRequired, form, categories) {
      return Some(DescriptionRequired);
    }
    if Fails(PriceNotPositive, form, categories) {
      return Some(PriceNotPositive);
    }
    if Fails(QuantityNegative, form, categories) {
      return Some(QuantityNegative);
    }
    if Fails(UnknownCategory, form, categories) {
      return Some(UnknownCategory);
    }
    if Fails(UploadExtension, form, categories) {
      return Some(UploadExtension);
    }
    r := None;
  }

  /** POST api/products, open to callers in the "admin" role only:
      `callerIsAdmin` is the framework's authorization verdict, and a refused
      caller is answered Unauthorized before the action runs. Then the first
      failed check answers BadRequest and nothing is stored; otherwise the new
      product is saved. */
  method CreateProduct(db: DataContext, callerIsAdmin: bool, form: ProductForm, guid: string, utcNow: Timestamp)
    returns (status: Status, productId: int)
    requires db.Valid()
    modifies db
    ensures db.Valid()
    ensures status in {Ok, BadRequest, Unauthorized}
    ensures status == Unauthorized <==> !callerIsAdmin
    ensures status == BadRequest <==> callerIsAdmin && FirstFailure(CreateChecks, form, old(db.categories)).Some?
    ensures status != Ok ==> db.Contents() == old(db.Contents())
    ensures status == Ok ==>
              && productId == old(db.nextProductId)
              && db.Contents() == old(db.Contents()).(
                   products := old(db.products) + [NewProduct(form, guid, utcNow).(productId := productId)],
                   nextProductId := productId + 1)
  {
    productId := 0;
    if !callerIsAdmin {
      return Unauthorized, productId;
    }
    var rejection := CreateRejection(form, db.categories);
    if rejection.Some? {
      return BadRequest, productId;
    }
    productId := db.AddProduct(NewProduct(form, guid, utcNow));
    status := Ok;
  }

  /** The product after an accepted update: the form's fields, availability
      recomputed from the quantity, the moment of the save, and the image
      replaced only when a file was sent. */
  function UpdatedProduct(p: Product, form: ProductForm, guid: string, utcNow: Timestamp): (r: Product)
    ensures r.isAvailable == (form.quantity > 0)
    ensures r.productId == p.productId
    ensures r.productName == form.productName && r.description == form.description
    ensures r.price == form.price && r.quantity == form.quantity
    ensures r.categoryId == form.categoryId && r.supplierId == form.supplierId && r.lastUpdated == utcNow
    ensures form.file.None? ==> r.image == p.image
    ensures form.file.Some? ==> r.image == Some(ImagePath(guid, form.file.value.fileName))
  {
    p.(productName := form.productName,
       description := form.description,
       price := form.price,
       quantity := form.quantity,
       isAvailable := form.quantity > 0,
       categoryId := form.categoryId,
       supplierId := form.supplierId,
       lastUpdated := utcNow,
       image := if form.file.Some? then Some(ImagePath(guid, form.file.value.fileName)) else p.image)
  }

  /** The checks of PUT api/products/{id}, in their fixed order. The
      extension of a sent file is checked last, after the tracked product
      has been given the new fields in memory; that copy is never saved. */
  method UpdateRejection(form: ProductForm, categories: seq<Category>) returns (r: Option<ProductCheck>)
    ensures r == FirstFailure(UpdateChecks, form, categories)
  {
    UpdateCheckOrder(form, categories);
    if Fails(NameRequired, form, categories) {
      return Some(NameRequired);
    }
    if Fails(PriceNotPositive, form, categories) {
      return Some(PriceNotPositive);
    }
    if Fails(QuantityNegative, form, categories) {
      return Some(QuantityNegative);
    }
    if Fails(UnknownCategory, form, categories) {
      return Some(UnknownCategory);
    }
    if Fails(FileExtension, form, categories) {
      return Some(FileExtension);
    }
    r := None;
  }

  /** PUT api/products/{id}, for the "admin" role only, as for
      `CreateProduct`. NotFound before any check; a failed check answers
      BadRequest before the save, so the stored product is unchanged. */
  method UpdateProduct(db: DataContext, callerIsAdmin: bool, id: int, form: ProductForm, guid: string,
                       utcNow: Timestamp)
    returns (status: Status)
    requires db.Valid()
    modifies db
    ensures db.Valid()
    ensures status in {Ok, BadRequest, NotFound, Unauthorized}
    ensures status == Unauthorized <==> !callerIsAdmin
    ensures status == NotFound <==> callerIsAdmin && FindProduct(old(db.products), id).None?
    ensures status == BadRequest <==>
              && callerIsAdmin
              && FindProduct(old(db.products), id).Some?
              && FirstFailure(UpdateChecks, form, old(db.categories)).Some?
    ensures status != Ok ==> db.Contents() == old(db.Contents())
    ensures status == Ok ==>
              var k := FindProduct(old(db.products), id).value;
              && db.Contents() == old(db.Contents()).(
                   products := old(db.products)[k := UpdatedProduct(old(db.products)[k], form, guid, utcNow)])
              && db.products[k].isAvailable == (db.products[k].quantity > 0)
  {
    if !callerIsAdmin {
      return Unauthorized;
    }
    var found := FindProduct(db.products, id);
    if found.None? {
      return NotFound;
    }
    var rejection := UpdateRejection(form, db.categories);
    if rejection.Some? {
      return BadRequest;
    }
    var k := found.value;
    db.SaveProduct(k, UpdatedProduct(db.products[k], form, guid, utcNow));
    status := Ok;
  }

  /** DELETE api/products/{id}, for the "admin" role only, as for
      `CreateProduct`: removes that product and no other row. */
  method DeleteProduct(db: DataContext, callerIsAdmin: bool, id: int) returns (status: Status)
    requires db.Valid()
    modifies db
    ensures db.Valid()
    ensures status == Unauthorized <==> !callerIsAdmin
    ensures status == NotFound <==> callerIsAdmin && FindProduct(old(db.products), id).None?
    ensures status in {Ok, NotFound, Unauthorized}
    ensures status != Ok ==> db.Contents() == old(db.Contents())
    ensures status == Ok ==>
              && db.Contents() == old(db.Contents()).(
                   products := RemoveAt(old(db.products), FindProduct(old(db.products), id).value))
              && forall p :: p in db.products ==> p.productId != id
  {
    if !callerIsAdmin {
      return Unauthorized;
    }
    var found := FindProduct(db.products, id);
    if found.None? {
      return NotFound;
    }
    db.RemoveProduct(found.value);
    status := Ok;
  }
}
