/**
 * CreateNewBook and UpdateBooks: the two book modals. Each keeps its inputs and
 * an error map as component state; submitting validates against the book
 * schema and, when that passes, fires the create or update mutation.
 */
module BookModals {
  import opened Wrappers
  import opened Text
  import opened Types
  import opened Validation
  import opened Forms
  import opened Services

  /**
   * The object CreateNewBook validates: a trimmed title, the raw description and
   * price text, and an image marker that is non-empty exactly when a file was
   * picked. There is no `type` key. `price` goes through `parseFloat`, which the
   * schema never reads.
   */
  function CreateBookRecord(title: string, description: string, price: string, image: Option<File>): (rec: Record)
    ensures "type" !in rec
    ensures "description" in rec && rec["description"] == description
    ensures "image" in rec && (rec["image"] != "" <==> image.Some?)
  {
    map["title" := Trim(title), "description" := description, "price" := price,
        "image" := if image.Some? then "valid" else ""]
  }

  /**
   * The object UpdateBooks validates: a trimmed title, the description, and an
   * image that is never empty (the stored URL, or "valid" when the book has
   * none). There is no `type` key.
   */
  function UpdateBookRecord(title: string, description: string, bookImage: string): (rec: Record)
    ensures "type" !in rec
    ensures "description" in rec && rec["description"] == description
    ensures "image" in rec && rec["image"] != ""
  {
    map["title" := Trim(title), "description" := description,
        "image" := if bookImage != "" then bookImage else "valid"]
  }

  /** The multipart body of a create: trimmed title, description, the raw price text, the file. */
  function CreateBookForm(title: string, description: string, price: string, file: File): (fd: FormData)
    ensures Names(fd) == ["title", "description", "price", "image"]
    ensures fd[0].1 == Text(Trim(title))
    ensures fd[1].1 == Text(description) && fd[2].1 == Text(price) && fd[3].1 == Blob(file)
  {
    [("title", Text(Trim(title))), ("description", Text(description)), ("price", Text(price)), ("image", Blob(file))]
  }

  /** The multipart body of an update: the trimmed title, then description and image only when present. */
  function UpdateBookForm(title: string, description: string, image: Option<File>): (fd: FormData)
    ensures Names(fd) == ["title"] + (if description != "" then ["description"] else [])
                         + (if image.Some? then ["image"] else [])
    ensures fd[0].1 == Text(Trim(title))
    ensures forall k :: 0 <= k < |fd| && fd[k].0 == "description" ==> fd[k].1 == Text(description)
    ensures forall k :: 0 <= k < |fd| && fd[k].0 == "image" ==> image.Some? && fd[k].1 == Blob(image.value)
  {
    [("title", Text(Trim(title)))]
    + (if description != "" then [("description", Text(description))] else [])
    + (if image.Some? then [("image", Blob(image.value))] else [])
  }

  /** Every error the book schema reports names one of its four fields. */
  lemma BookErrorPathsNonEmpty(rec: Record)
    ensures forall e :: e in Validate(BookSchema, rec) ==> e.path != ""
  {
    BookSchemaPaths(rec);
    NoEmptyPath(Validate(BookSchema, rec));
  }

  /**
   * The schema requires `type`, which no book form supplies: validation then
   * always fails and the field shows "Type is required".
   */
  lemma MissingTypeRejected(rec: Record)
    requires "type" !in rec
    ensures Validate(BookSchema, rec) != []
    ensures var m := Fold(Validate(BookSchema, rec)); "type" in m && m["type"] == "Type is required"
  {
    var errs := Validate(BookSchema, rec);
    RequiredReported(BookSchema, rec, 3);
    var t := ValidationError("type", "Type is required");
    assert t in errs;
    forall e | e in errs && e.path == "type" ensures e.message == "Type is required" {
      ValidateExact(BookSchema, rec, e);
      var i, j :| Reports(BookSchema, rec, i, j, e);
      assert i == 3 && j == 0;
    }
    FoldSingleMessage(errs, "type", "Type is required");
  }

  /** The fields CreateNewBook flags: title, description and image by their rules, and always type. */
  lemma CreateBookErrorKeys(title: string, description: string, price: string, image: Option<File>)
    ensures Fold(Validate(BookSchema, CreateBookRecord(title, description, price, image))).Keys ==
            (if 3 <= |Trim(title)| <= 100 then {} else {"title"})
            + (if |description| >= 20 then {} else {"description"})
            + (if image.Some? then {} else {"image"})
            + {"type"}
  {
    var rec := CreateBookRecord(title, description, price, image);
    BookSchemaPaths(rec);
    TrimIdempotent(title);
    BookErrorPathsNonEmpty(rec);
    FoldPaths(Validate(BookSchema, rec));
  }

  /** The fields UpdateBooks flags: title and description by their rules, never image, always type. */
  lemma UpdateBookErrorKeys(title: string, description: string, bookImage: string)
    ensures Fold(Validate(BookSchema, UpdateBookRecord(title, description, bookImage))).Keys ==
            (if 3 <= |Trim(title)| <= 100 then {} else {"title"})
            + (if |description| >= 20 then {} else {"description"})
            + {"type"}
  {
    var rec := UpdateBookRecord(title, description, bookImage);
    BookSchemaPaths(rec);
    TrimIdempotent(title);
    BookErrorPathsNonEmpty(rec);
    FoldPaths(Validate(BookSchema, rec));
  }

  /** Neither book modal ever gets past validation, whatever the user enters. */
  lemma BookFormsNeverValidate(title: string, description: string, price: string, image: Option<File>, bookImage: string)
    ensures Validate(BookSchema, CreateBookRecord(title, description, price, image)) != []
    ensures Validate(BookSchema, UpdateBookRecord(title, description, bookImage)) != []
  {
    MissingTypeRejected(CreateBookRecord(title, description, price, image));
    MissingTypeRejected(UpdateBookRecord(title, description, bookImage));
  }

  /** The "Add New Book" modal. */
  class CreateNewBook {
    var title: string
    var description: string
    var price: string
    var image: Option<File>
    var errors: map<string, string>

    constructor()
      ensures title == "" && description == "" && price == "" && image == None && errors == map[]
    {
      title, description, price, image, errors := "", "", "", None, map[];
    }

    /** The file input's change handler: a picked file replaces the image and blanks its error. */
    method ChooseFile(files: seq<File>)
      modifies this
      ensures files != [] ==> image == Some(files[0]) && errors == old(errors)["image" := ""]
      ensures files == [] ==> image == old(image) && errors == old(errors)
      ensures title == old(title) && description == old(description) && price == old(price)
    {
      if files != [] {
        image := Some(files[0]);
        errors := errors["image" := ""];
      }
    }

    /**
     * handleSubmit, with `outcome` the settlement of the create mutation; `closed`
     * says whether `onClose` is called.
     */
    method Submit(outcome: Outcome) returns (sent: Option<Sent>, toast: Toast, closed: bool)
      modifies this
      ensures var errs := Validate(BookSchema, CreateBookRecord(old(title), old(description), old(price), old(image)));
              errs != [] ==> sent == None && toast == Error(FixErrors) && !closed && errors == Fold(errs)
      ensures var errs := Validate(BookSchema, CreateBookRecord(old(title), old(description), old(price), old(image)));
              errs == [] && old(image) == None ==>
                sent == None && toast == Error("Please select an image") && !closed
                && errors == map["image" := "Book image is required"]
      ensures var errs := Validate(BookSchema, CreateBookRecord(old(title), old(description), old(price), old(image)));
              errs == [] && old(image).Some? ==>
                sent == Some(Sent(CreateItem, Multipart(CreateBookForm(old(title), old(description), old(price), old(image).value))))
                && errors == map[] && (closed <==> outcome.Succeeded?)
                && toast == (if outcome.Succeeded? then Success("Book created successfully")
                             else Error(FailureText(outcome, "Failed to create book")))
      ensures sent.Some? && outcome.Succeeded? ==> title == "" && description == "" && price == "" && image == None
      ensures !(sent.Some? && outcome.Succeeded?) ==>
                title == old(title) && description == old(description) && price == old(price) && image == old(image)
    {
      errors := map[];
      var errs := Validate(BookSchema, CreateBookRecord(title, description, price, image));
      if errs != [] {
        errors := CollectErrors(errs);
        sent, toast, closed := None, Error(FixErrors), false;
        return;
      }
      match image {
        case None =>
          errors := map["image" := "Book image is required"];
          sent, toast, closed := None, Error("Please select an image"), false;
        case Some(file) =>
          sent := Some(Sent(CreateItem, Multipart(CreateBookForm(title, description, price, file))));
          toast, closed := Settle(outcome);
      }
    }

    /** After the create mutation settles: a success resets the form and closes it, a failure keeps everything. */
    method Settle(outcome: Outcome) returns (toast: Toast, closed: bool)
      modifies this
      ensures closed <==> outcome.Succeeded?
      ensures toast == (if outcome.Succeeded? then Success("Book created successfully")
                        else Error(FailureText(outcome, "Failed to create book")))
      ensures outcome.Succeeded? ==> title == "" && description == "" && price == "" && image == None && errors == map[]
      ensures !outcome.Succeeded? ==>
                title == old(title) && description == old(description) && price == old(price) && image == old(image)
                && errors == old(errors)
    {
      if outcome.Succeeded? {
        toast := Success("Book created successfully");
        title, description, price, image, errors := "", "", "", None, map[];
        closed := true;
      } else {
        toast := Error(FailureText(outcome, "Failed to create book"));
        closed := false;
      }
    }
  }

  /** The "Update Book" modal; `book` is the row being edited. */
  class UpdateBooks {
    var title: string
    var description: string
    var image: Option<File>
    var errors: map<string, string>

    constructor(book: Book)
      ensures title == book.title && description == book.description && image == None && errors == map[]
    {
      title, description, image, errors := book.title, book.description, None, map[];
    }

    /** The effect on `[isOpen, book]`: opening reloads the inputs from the book. */
    method Sync(isOpen: bool, book: Book)
      modifies this
      ensures isOpen ==> title == book.title && description == book.description && image == None && errors == map[]
      ensures !isOpen ==> title == old(title) && description == old(description) && image == old(image) && errors == old(errors)
    {
      if isOpen {
        title, description, image, errors := book.title, book.description, None, map[];
      }
    }

    /** The file input's change handler: only the image changes. */
    method ChooseFile(files: seq<File>)
      modifies this
      ensures image == if files != [] then Some(files[0]) else old(image)
      ensures title == old(title) && description == old(description) && errors == old(errors)
    {
      if files != [] {
        image := Some(files[0]);
      }
    }

    method Submit(book: Book, outcome: Outcome) returns (sent: Option<Sent>, toast: Toast, closed: bool)
      modifies this
      ensures title == old(title) && description == old(description) && image == old(image)
      ensures var errs := Validate(BookSchema, UpdateBookRecord(old(title), old(description), book.image));
              errs != [] ==> sent == None && toast == Error(FixErrors) && !closed && errors == Fold(errs)
      ensures var errs := Validate(BookSchema, UpdateBookRecord(old(title), old(description), book.image));
              errs == [] ==>
                sent == Some(Sent(UpdateItem(book.id), Multipart(UpdateBookForm(old(title), old(description), old(image)))))
                && errors == map[] && (closed <==> outcome.Succeeded?)
                && toast == (if outcome.Succeeded? then Success("Book updated successfully")
                             else Error(FailureText(outcome, "Failed to update book")))
    {
      errors := map[];
      var errs := Validate(BookSchema, UpdateBookRecord(title, description, book.image));
      if errs != [] {
        errors := CollectErrors(errs);
        sent, toast, closed := None, Error(FixErrors), false;
        return;
      }
      sent := Some(Sent(UpdateItem(book.id), Multipart(UpdateBookForm(title, description, image))));
      if outcome.Succeeded? {
        toast, closed := Success("Book updated successfully"), true;
      } else {
        toast, closed := Error(FailureText(outcome, "Failed to update book")), false;
      }
    }
  }
}
