/**
 * The product editor of the admin catalogue page
 * (`src/pages/admin/AdminProducts.jsx`): the form fields, the validation
 * that fills the error map, the new-image and existing-image lists, and the
 * multipart submission built from them.
 *
 * `parseFloat(price)` and `parseInt(stock)` are JavaScript built-ins; their
 * results are passed in, with `None` standing for `NaN`.
 */
module AdminProducts {
  import opened Wrappers
  import opened Text

  const MAX_IMAGES := 10

  datatype Field = Name | Description | Price | Category | Stock | IsActive

  datatype FormData = FormData(
    name: string, description: string, price: string,
    category: string, stock: string, isActive: bool)

  const DEFAULT_FORM := FormData("", "", "", "electronics", "", true)

  /** Where an error message is shown: under a field, or under the image picker. */
  datatype ErrorKey = OnField(field: Field) | OnImages

  const NAME_REQUIRED := "Product name is required"
  const PRICE_REQUIRED := "Valid price is required"
  const STOCK_REQUIRED := "Valid stock quantity is required"
  const CATEGORY_REQUIRED := "Category is required"
  const IMAGES_REQUIRED := "At least one product image is required"

  // ---------------------------------------------------------------- validation

  /** `!name.trim()`, stated as "every character is whitespace" (see `Text.TrimEmptyIffAllWhitespace`). */
  predicate NameInvalid(f: FormData) { AllWhitespace(f.name) }
  /** `!price || parseFloat(price) <= 0`: NaN compares false, so only a parsed number can fail the bound. */
  predicate PriceInvalid(f: FormData, price: Option<real>) { f.price == "" || (price.Some? && price.value <= 0.0) }
  predicate StockInvalid(f: FormData, stock: Option<int>) { f.stock == "" || (stock.Some? && stock.value < 0) }
  predicate CategoryInvalid(f: FormData) { f.category == "" }
  predicate ImagesMissing(newFiles: nat, existing: nat) { newFiles == 0 && existing == 0 }

  /** The error map built from the outcome of the five checks, in the order they run. */
  function ErrorMap(nameBad: bool, priceBad: bool, stockBad: bool, categoryBad: bool, imagesBad: bool): map<ErrorKey, string> {
    AddIf(AddIf(AddIf(AddIf(AddIf(map[],
      nameBad, OnField(Name), NAME_REQUIRED),
      priceBad, OnField(Price), PRICE_REQUIRED),
      stockBad, OnField(Stock), STOCK_REQUIRED),
      categoryBad, OnField(Category), CATEGORY_REQUIRED),
      imagesBad, OnImages, IMAGES_REQUIRED)
  }

  /** One check of `validateForm`: a failed check records its message. */
  function AddIf(errors: map<ErrorKey, string>, failed: bool, k: ErrorKey, message: string): map<ErrorKey, string> {
    if failed then errors[k := message] else errors
  }

  /** The error map `validateForm` builds, one entry per failed check. */
  function ValidationErrors(f: FormData, price: Option<real>, stock: Option<int>, newFiles: nat, existing: nat): map<ErrorKey, string> {
    ErrorMap(NameInvalid(f), PriceInvalid(f, price), StockInvalid(f, stock), CategoryInvalid(f), ImagesMissing(newFiles, existing))
  }

  /** Each key is present exactly when its check failed, with that check's message. */
  lemma ErrorMapIff(nameBad: bool, priceBad: bool, stockBad: bool, categoryBad: bool, imagesBad: bool)
    ensures var e := ErrorMap(nameBad, priceBad, stockBad, categoryBad, imagesBad);
      && (OnField(Name) in e <==> nameBad) && (OnField(Price) in e <==> priceBad)
      && (OnField(Stock) in e <==> stockBad) && (OnField(Category) in e <==> categoryBad)
      && (OnImages in e <==> imagesBad)
      && OnField(Description) !in e && OnField(IsActive) !in e
      && (nameBad ==> e[OnField(Name)] == NAME_REQUIRED) && (priceBad ==> e[OnField(Price)] == PRICE_REQUIRED)
      && (stockBad ==> e[OnField(Stock)] == STOCK_REQUIRED) && (categoryBad ==> e[OnField(Category)] == CATEGORY_REQUIRED)
      && (imagesBad ==> e[OnImages] == IMAGES_REQUIRED)
      && (e == map[] <==> !nameBad && !priceBad && !stockBad && !categoryBad && !imagesBad)
  {
    var e := ErrorMap(nameBad, priceBad, stockBad, categoryBad, imagesBad);
    if e == map[] {
      assert OnField(Name) !in e && OnField(Price) !in e && OnField(Stock) !in e;
      assert OnField(Category) !in e && OnImages !in e;
    }
  }

  /** The validation errors, check by check; the form is valid exactly when no check fails. */
  lemma ValidationErrorsIff(f: FormData, price: Option<real>, stock: Option<int>, newFiles: nat, existing: nat)
    ensures var e := ValidationErrors(f, price, stock, newFiles, existing);
      && (OnField(Name) in e <==> Trim(f.name) == "")
      && (OnField(Price) in e <==> f.price == "" || (price.Some? && price.value <= 0.0))
      && (OnField(Stock) in e <==> f.stock == "" || (stock.Some? && stock.value < 0))
      && (OnField(Category) in e <==> f.category == "")
      && (OnImages in e <==> newFiles == 0 && existing == 0)
      && OnField(Description) !in e && OnField(IsActive) !in e
  {
    ErrorMapIff(NameInvalid(f), PriceInvalid(f, price), StockInvalid(f, stock), CategoryInvalid(f), ImagesMissing(newFiles, existing));
    TrimEmptyIffAllWhitespace(f.name);
  }

  /** The form is valid exactly when no check fails. */
  lemma ValidIffNoCheckFails(f: FormData, price: Option<real>, stock: Option<int>, newFiles: nat, existing: nat)
    ensures ValidationErrors(f, price, stock, newFiles, existing) == map[] <==>
      !NameInvalid(f) && !PriceInvalid(f, price) && !StockInvalid(f, stock)
      && !CategoryInvalid(f) && !ImagesMissing(newFiles, existing)
  {
    ErrorMapIff(NameInvalid(f), PriceInvalid(f, price), StockInvalid(f, stock), CategoryInvalid(f), ImagesMissing(newFiles, existing));
  }

  /** A price that does not parse (`NaN`) passes the price check, as does a stock that does not parse. */
  lemma UnparsedNumbersPass(f: FormData)
    requires f.price != "" && f.stock != ""
    ensures OnField(Price) !in ValidationErrors(f, None, None, 1, 0)
    ensures OnField(Stock) !in ValidationErrors(f, None, None, 1, 0)
  {
    ValidationErrorsIff(f, None, None, 1, 0);
  }

  // ---------------------------------------------------------------- list operations

  /** `list.filter((_, i) => i !== index)`. */
  function WithoutIndex<T>(s: seq<T>, index: int): (r: seq<T>)
    ensures 0 <= index < |s| ==> r == s[..index] + s[index + 1..]
    ensures !(0 <= index < |s|) ==> r == s
    decreases |s|
  {
    if s == [] then []
    else
      var rest := WithoutIndex(s[1..], index - 1);
      assert 0 < index < |s| ==> s[1..][..index - 1] + s[1..][index..] == s[1..index] + s[index + 1..];
      assert index == 0 ==> s[1..] == s[index + 1..];
      (if index == 0 then [] else [s[0]]) + rest
  }

  /**
   * Removing preview i and file i together keeps the two lists paired:
   * each remaining preview still sits beside the file it was made from.
   */
  lemma RemoveKeepsPairs<P, F>(previews: seq<P>, files: seq<F>, index: int)
    requires |previews| == |files|
    ensures |WithoutIndex(previews, index)| == |WithoutIndex(files, index)|
    ensures forall j :: 0 <= j < |WithoutIndex(files, index)| ==>
      var orig := if 0 <= index <= j then j + 1 else j;
      WithoutIndex(previews, index)[j] == previews[orig] && WithoutIndex(files, index)[j] == files[orig]
  {
    forall j | 0 <= j < |WithoutIndex(files, index)|
      ensures var orig := if 0 <= index <= j then j + 1 else j;
        WithoutIndex(previews, index)[j] == previews[orig] && WithoutIndex(files, index)[j] == files[orig]
    {
      WithoutIndexAt(previews, index, j);
      WithoutIndexAt(files, index, j);
    }
  }

  /** Position j of the filtered list is position j of the original before the removed index, j + 1 after it. */
  lemma WithoutIndexAt<T>(s: seq<T>, index: int, j: int)
    requires 0 <= j < |WithoutIndex(s, index)|
    ensures WithoutIndex(s, index)[j] == s[if 0 <= index <= j then j + 1 else j]
  {
    if 0 <= index < |s| {
      if j < index {
        assert WithoutIndex(s, index)[j] == s[..index][j];
      } else {
        assert WithoutIndex(s, index)[j] == s[index + 1..][j - index];
      }
    }
  }

  /** A selection is taken only if the image total stays within ten. */
  predicate SelectionFits(existing: nat, current: nat, selected: nat) {
    existing + current + selected <= MAX_IMAGES
  }

  // ---------------------------------------------------------------- the submission

  datatype Part = TextPart(text: string) | FilePart(file: nat) | JsonList(items: seq<string>)
  type Entry = (string, Part)

  /** One `images` part per new file, in the files' order. */
  function FileEntries(files: seq<nat>): seq<Entry> {
    seq(|files|, i requires 0 <= i < |files| => ("images", FilePart(files[i])))
  }

  function FieldEntries(f: FormData): seq<Entry> {
    [("name", TextPart(Trim(f.name))), ("description", TextPart(Trim(f.description))),
     ("price", TextPart(f.price)), ("category", TextPart(f.category)),
     ("stock", TextPart(f.stock)), ("isActive", TextPart(if f.isActive then "true" else "false"))]
  }

  /** The multipart body: the fields, one `images` part per new file, then the kept images if any. */
  function Submission(f: FormData, files: seq<nat>, existing: seq<string>): seq<Entry> {
    FieldEntries(f) + FileEntries(files) + KeepPart(existing)
  }

  /** `keepExistingImages`, sent only when some existing image is kept. */
  function KeepPart(existing: seq<string>): seq<Entry> {
    if |existing| > 0 then [("keepExistingImages", JsonList(existing))] else []
  }

  lemma KeepPartReadBack(existing: seq<string>)
    ensures UploadedFiles(KeepPart(existing)) == [] && KeptImages(KeepPart(existing)) == existing
  {
    if |existing| > 0 {
      assert KeepPart(existing)[1..] == [];
    }
  }

  /** The uploaded files, read back from a body. */
  function UploadedFiles(body: seq<Entry>): seq<nat> {
    if body == [] then []
    else (if body[0].1.FilePart? then [body[0].1.file] else []) + UploadedFiles(body[1..])
  }

  /** The kept images, read back from a body. */
  function KeptImages(body: seq<Entry>): seq<string> {
    if body == [] then []
    else (if body[0].1.JsonList? then body[0].1.items else []) + KeptImages(body[1..])
  }

  lemma {:induction false} ReadBackAppend(a: seq<Entry>, b: seq<Entry>)
    ensures UploadedFiles(a + b) == UploadedFiles(a) + UploadedFiles(b)
    ensures KeptImages(a + b) == KeptImages(a) + KeptImages(b)
  {
    if a != [] {
      assert (a + b)[1..] == a[1..] + b;
      ReadBackAppend(a[1..], b);
    } else {
      assert a + b == b;
    }
  }

  lemma {:induction false} FileEntriesReadBack(files: seq<nat>)
    ensures UploadedFiles(FileEntries(files)) == files
    ensures KeptImages(FileEntries(files)) == []
  {
    if files != [] {
      FileEntriesReadBack(files[1..]);
      assert FileEntries(files) == [FileEntries(files)[0]] + FileEntries(files[1..]);
      ReadBackAppend([FileEntries(files)[0]], FileEntries(files[1..]));
    }
  }

  lemma {:induction false} TextOnlyReadsBackNothing(body: seq<Entry>)
    requires forall i :: 0 <= i < |body| ==> body[i].1.TextPart?
    ensures UploadedFiles(body) == [] && KeptImages(body) == []
  {
    if body != [] {
      TextOnlyReadsBackNothing(body[1..]);
    }
  }

  lemma BodyReadBack(header: seq<Entry>, files: seq<nat>, existing: seq<string>)
    requires forall i :: 0 <= i < |header| ==> header[i].1.TextPart?
    ensures UploadedFiles(header + FileEntries(files) + KeepPart(existing)) == files
    ensures KeptImages(header + FileEntries(files) + KeepPart(existing)) == existing
  {
    ReadBackAppend(header, FileEntries(files));
    ReadBackAppend(header + FileEntries(files), KeepPart(existing));
    TextOnlyReadsBackNothing(header);
    FileEntriesReadBack(files);
    KeepPartReadBack(existing);
  }

  /** The body carries exactly the new files, in order, and exactly the kept existing images. */
  lemma SubmissionReadBack(f: FormData, files: seq<nat>, existing: seq<string>)
    ensures UploadedFiles(Submission(f, files, existing)) == files
    ensures KeptImages(Submission(f, files, existing)) == existing
  {
    BodyReadBack(FieldEntries(f), files, existing);
  }

  datatype Outcome = NotSubmitted | Create(body: seq<Entry>) | Update(id: string, body: seq<Entry>)

  /** A product as the list shows it, used to fill the form for editing. */
  datatype ProductRecord = ProductRecord(
    id: string, name: string, description: Option<string>, priceText: string,
    category: string, stockText: string, isActive: bool, images: Option<seq<string>>)

  datatype InputValue = TextValue(text: string) | Checked(checked: bool)

  /** `[name]: type === "checkbox" ? checked : value`; the active flag is the form's only checkbox. */
  function WithInput(f: FormData, field: Field, v: InputValue): (g: FormData)
    requires field == IsActive <==> v.Checked?
  {
    match field
    case Name => f.(name := v.text)
    case Description => f.(description := v.text)
    case Price => f.(price := v.text)
    case Category => f.(category := v.text)
    case Stock => f.(stock := v.text)
    case IsActive => f.(isActive := v.checked)
  }

  /** `formErrors[name]` is truthy: that field shows an error. */
  predicate ShowsError(errors: map<ErrorKey, string>, k: ErrorKey) {
    k in errors && errors[k] != ""
  }

  /** Blanks the message for `k` if one is shown, leaving every other message as it was. */
  function ClearError(errors: map<ErrorKey, string>, k: ErrorKey): (r: map<ErrorKey, string>)
    ensures !ShowsError(r, k)
    ensures forall k' :: k' != k ==> (k' in r <==> k' in errors) && (k' in r ==> r[k'] == errors[k'])
  {
    if ShowsError(errors, k) then errors[k := ""] else errors
  }

  // ---------------------------------------------------------------- the editor state

  class ProductForm {
    var isModalOpen: bool
    var editingProduct: Option<string>
    var formData: FormData
    var imageFiles: seq<nat>
    var imagePreviews: seq<string>
    var existingImages: seq<string>
    var formErrors: map<ErrorKey, string>

    /** Every new file has its preview at the same position. */
    predicate Valid()
      reads this
    {
      |imageFiles| == |imagePreviews|
    }

    constructor ()
      ensures Valid() && !isModalOpen && editingProduct.None? && formData == DEFAULT_FORM
      ensures imageFiles == [] && imagePreviews == [] && existingImages == [] && formErrors == map[]
    {
      isModalOpen := false;
      editingProduct := None;
      formData := DEFAULT_FORM;
      imageFiles, imagePreviews, existingImages := [], [], [];
      formErrors := map[];
    }

    /** `resetForm`: defaults back, lists and errors emptied, nothing being edited. */
    method ResetForm()
      modifies this
      ensures Valid() && formData == DEFAULT_FORM && editingProduct.None?
      ensures imageFiles == [] && imagePreviews == [] && existingImages == [] && formErrors == map[]
      ensures isModalOpen == old(isModalOpen)
    {
      formData := DEFAULT_FORM;
      imageFiles, imagePreviews, existingImages := [], [], [];
      formErrors := map[];
      editingProduct := None;
    }

    /** `handleCloseModal`. */
    method CloseModal()
      modifies this
      ensures Valid() && !isModalOpen && formData == DEFAULT_FORM && editingProduct.None?
      ensures imageFiles == [] && imagePreviews == [] && existingImages == [] && formErrors == map[]
    {
      isModalOpen := false;
      ResetForm();
    }

    /** `handleEdit`: the form shows the product; earlier error messages are left as they were. */
    method Edit(p: ProductRecord)
      modifies this
      ensures Valid() && isModalOpen && editingProduct == Some(p.id)
      ensures formData == FormData(p.name, p.description.GetOr(""), p.priceText, p.category, p.stockText, p.isActive)
      ensures existingImages == p.images.GetOr([]) && imageFiles == [] && imagePreviews == []
      ensures formErrors == old(formErrors)
    {
      editingProduct := Some(p.id);
      formData := FormData(p.name, p.description.GetOr(""), p.priceText, p.category, p.stockText, p.isActive);
      existingImages := p.images.GetOr([]);
      imageFiles, imagePreviews := [], [];
      isModalOpen := true;
    }

    /** `handleInputChange`: the field takes the value and its error message, if shown, is blanked. */
    method InputChange(field: Field, v: InputValue)
      requires field == IsActive <==> v.Checked?
      modifies this
      ensures formData == WithInput(old(formData), field, v)
      ensures formErrors == ClearError(old(formErrors), OnField(field))
      ensures imageFiles == old(imageFiles) && imagePreviews == old(imagePreviews)
      ensures existingImages == old(existingImages) && editingProduct == old(editingProduct)
      ensures isModalOpen == old(isModalOpen)
    {
      formData := WithInput(formData, field, v);
      if ShowsError(formErrors, OnField(field)) {
        formErrors := formErrors[OnField(field) := ""];
      }
    }

    /**
     * The file picker: a selection that would exceed ten images in all is
     * refused and nothing changes; otherwise files and previews are
     * appended in order and the images message is blanked.
     */
    method SelectFiles(files: seq<nat>, previews: seq<string>) returns (accepted: bool)
      requires Valid() && |previews| == |files|
      modifies this
      ensures Valid()
      ensures accepted == SelectionFits(|existingImages|, |old(imageFiles)|, |files|)
      ensures accepted ==> imageFiles == old(imageFiles) + files && imagePreviews == old(imagePreviews) + previews
      ensures accepted ==> formErrors == ClearError(old(formErrors), OnImages)
      ensures !accepted ==> imageFiles == old(imageFiles) && imagePreviews == old(imagePreviews) && formErrors == old(formErrors)
      ensures existingImages == old(existingImages) && formData == old(formData)
      ensures editingProduct == old(editingProduct) && isModalOpen == old(isModalOpen)
    {
      if |existingImages| + |imageFiles| + |files| > MAX_IMAGES {
        return false;
      }
      imagePreviews := imagePreviews + previews;
      imageFiles := imageFiles + files;
      if ShowsError(formErrors, OnImages) {
        formErrors := formErrors[OnImages := ""];
      }
      return true;
    }

    /** Removing new image `index` drops it from the previews and the files alike. */
    method RemoveNewImage(index: int)
      requires Valid()
      modifies this
      ensures Valid()
      ensures imagePreviews == WithoutIndex(old(imagePreviews), index)
      ensures imageFiles == WithoutIndex(old(imageFiles), index)
      ensures existingImages == old(existingImages) && formData == old(formData) && formErrors == old(formErrors)
      ensures editingProduct == old(editingProduct) && isModalOpen == old(isModalOpen)
    {
      RemoveKeepsPairs(imagePreviews, imageFiles, index);
      imagePreviews := WithoutIndex(imagePreviews, index);
      imageFiles := WithoutIndex(imageFiles, index);
    }

    /** Removing existing image `index` touches only the existing list. */
    method RemoveExistingImage(index: int)
      modifies this
      ensures existingImages == WithoutIndex(old(existingImages), index)
      ensures imageFiles == old(imageFiles) && imagePreviews == old(imagePreviews)
      ensures formData == old(formData) && formErrors == old(formErrors)
      ensures editingProduct == old(editingProduct) && isModalOpen == old(isModalOpen)
    {
      existingImages := WithoutIndex(existingImages, index);
    }

    /** `validateForm`: the error map is rebuilt from scratch; the form is valid iff it is empty. */
    method ValidateForm(price: Option<real>, stock: Option<int>) returns (valid: bool)
      modifies this
      ensures formErrors == ValidationErrors(formData, price, stock, |imageFiles|, |existingImages|)
      ensures valid <==> formErrors == map[]
      ensures formData == old(formData) && imageFiles == old(imageFiles) && imagePreviews == old(imagePreviews)
      ensures existingImages == old(existingImages) && editingProduct == old(editingProduct)
      ensures isModalOpen == old(isModalOpen)
    {
      var nameBad := NameInvalid(formData);
      var priceBad := PriceInvalid(formData, price);
      var stockBad := StockInvalid(formData, stock);
      var categoryBad := CategoryInvalid(formData);
      var imagesBad := ImagesMissing(|imageFiles|, |existingImages|);
      var errors: map<ErrorKey, string> := map[];
      if nameBad { errors := errors[OnField(Name) := NAME_REQUIRED]; }
      if priceBad { errors := errors[OnField(Price) := PRICE_REQUIRED]; }
      if stockBad { errors := errors[OnField(Stock) := STOCK_REQUIRED]; }
      if categoryBad { errors := errors[OnField(Category) := CATEGORY_REQUIRED]; }
      if imagesBad { errors := errors[OnImages := IMAGES_REQUIRED]; }
      formErrors := errors;
      valid := errors == map[];
    }

    /**
     * `handleSubmit`: nothing is sent unless the form validates; otherwise
     * the body is built part by part and sent as an update when a product
     * is being edited, as a creation otherwise.
     */
    method Submit(price: Option<real>, stock: Option<int>) returns (out: Outcome)
      modifies this
      ensures formErrors == ValidationErrors(formData, price, stock, |imageFiles|, |existingImages|)
      ensures out.NotSubmitted? <==> formErrors != map[]
      ensures out.Create? ==> editingProduct.None? && out.body == Submission(formData, imageFiles, existingImages)
      ensures out.Update? ==> editingProduct == Some(out.id) && out.body == Submission(formData, imageFiles, existingImages)
      ensures formData == old(formData) && imageFiles == old(imageFiles) && imagePreviews == old(imagePreviews)
      ensures existingImages == old(existingImages) && editingProduct == old(editingProduct)
      ensures isModalOpen == old(isModalOpen)
    {
      var valid := ValidateForm(price, stock);
      if !valid {
        return NotSubmitted;
      }
      var body := FieldEntries(formData);
      var i := 0;
      while i < |imageFiles|
        invariant 0 <= i <= |imageFiles|
        invariant body == FieldEntries(formData) + FileEntries(imageFiles[..i])
      {
        assert FileEntries(imageFiles[..i + 1]) == FileEntries(imageFiles[..i]) + [("images", FilePart(imageFiles[i]))];
        body := body + [("images", FilePart(imageFiles[i]))];
        i := i + 1;
      }
      assert imageFiles[..i] == imageFiles;
      if |existingImages| > 0 {
        body := body + [("keepExistingImages", JsonList(existingImages))];
      }
      assert body == Submission(formData, imageFiles, existingImages);
      if editingProduct.Some? {
        out := Update(editingProduct.value, body);
      } else {
        out := Create(body);
      }
    }
  }
}
