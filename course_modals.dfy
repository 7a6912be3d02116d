/**
 * CreateCourse and UpdateCourse: the two course modals. Both trim every text
 * input before validating and before sending.
 */
module CourseModals {
  import opened Wrappers
  import opened Text
  import opened Types
  import opened Validation
  import opened Forms
  import opened Services

  /** The object CreateCourse validates: the three texts trimmed, and an image marker that is non-empty exactly when a file was picked. */
  function CreateCourseRecord(name: string, title: string, courseType: string, image: Option<File>): (rec: Record)
    ensures "image" in rec && (rec["image"] != "" <==> image.Some?)
  {
    map["name" := Trim(name), "title" := Trim(title), "type" := Trim(courseType),
        "image" := if image.Some? then "valid" else ""]
  }

  /**
   * The object UpdateCourse validates: a new file counts as "valid", otherwise
   * the stored image URL, so the image is empty only when neither exists.
   */
  function UpdateCourseRecord(name: string, title: string, courseType: string, image: Option<File>,
                              courseImage: string): (rec: Record)
    ensures "image" in rec && (rec["image"] == "" <==> image.None? && courseImage == "")
  {
    map["name" := Trim(name), "title" := Trim(title), "type" := Trim(courseType),
        "image" := if image.Some? then "valid" else courseImage]
  }

  /** The create body: the three trimmed texts and the picked file. */
  function CreateCourseForm(name: string, title: string, courseType: string, file: File): (fd: FormData)
    ensures Names(fd) == ["name", "title", "type", "image"]
    ensures fd[0].1 == Text(Trim(name)) && fd[1].1 == Text(Trim(title)) && fd[2].1 == Text(Trim(courseType))
    ensures fd[3].1 == Blob(file)
  {
    var fd := [("name", Text(Trim(name))), ("title", Text(Trim(title))), ("type", Text(Trim(courseType))), ("image", Blob(file))];
    assert Names(fd) == ["name", "title", "type", "image"];
    fd
  }

  /** The update body: the three trimmed texts, and the image only when a new one was picked. */
  function UpdateCourseForm(name: string, title: string, courseType: string, image: Option<File>): (fd: FormData)
    ensures Names(fd) == ["name", "title", "type"] + (if image.Some? then ["image"] else [])
    ensures fd[0].1 == Text(Trim(name)) && fd[1].1 == Text(Trim(title)) && fd[2].1 == Text(Trim(courseType))
    ensures image.Some? ==> fd[3].1 == Blob(image.value)
  {
    [("name", Text(Trim(name))), ("title", Text(Trim(title))), ("type", Text(Trim(courseType)))]
    + (if image.Some? then [("image", Blob(image.value))] else [])
  }

  /** The course fields whose rules a record breaks, after the forms' trimming. */
  function CourseFailures(name: string, title: string, courseType: string, imageMissing: bool): set<string> {
    (if |Trim(name)| >= 3 then {} else {"name"})
    + (if |Trim(title)| >= 5 then {} else {"title"})
    + (if Trim(courseType) != "" then {} else {"type"})
    + (if imageMissing then {"image"} else {})
  }

  lemma CourseErrorPathsNonEmpty(rec: Record)
    ensures forall e :: e in Validate(CourseSchema, rec) ==> e.path != ""
  {
    CourseSchemaPaths(rec);
    NoEmptyPath(Validate(CourseSchema, rec));
  }

  /** The fields CreateCourse flags, and that it passes validation exactly when none is. */
  lemma CreateCourseErrorKeys(name: string, title: string, courseType: string, image: Option<File>)
    ensures Fold(Validate(CourseSchema, CreateCourseRecord(name, title, courseType, image))).Keys
            == CourseFailures(name, title, courseType, image.None?)
    ensures Validate(CourseSchema, CreateCourseRecord(name, title, courseType, image)) == []
            <==> |Trim(name)| >= 3 && |Trim(title)| >= 5 && Trim(courseType) != "" && image.Some?
  {
    var rec := CreateCourseRecord(name, title, courseType, image);
    CourseSchemaPaths(rec);
    CourseErrorPathsNonEmpty(rec);
    FoldPaths(Validate(CourseSchema, rec));
    NoErrorsIffNoPaths(Validate(CourseSchema, rec));
  }

  /** CreateCourse's own `!image` check can never fire: the schema has already rejected a missing image. */
  lemma CreateCourseImageCheckUnreachable(name: string, title: string, courseType: string, image: Option<File>)
    requires Validate(CourseSchema, CreateCourseRecord(name, title, courseType, image)) == []
    ensures image.Some?
  {
    CreateCourseErrorKeys(name, title, courseType, image);
  }

  /** UpdateCourse flags the image only when no file is picked and the course has no stored image. */
  lemma UpdateCourseErrorKeys(name: string, title: string, courseType: string, image: Option<File>, courseImage: string)
    ensures Fold(Validate(CourseSchema, UpdateCourseRecord(name, title, courseType, image, courseImage))).Keys
            == CourseFailures(name, title, courseType, image.None? && courseImage == "")
    ensures Validate(CourseSchema, UpdateCourseRecord(name, title, courseType, image, courseImage)) == []
            <==> |Trim(name)| >= 3 && |Trim(title)| >= 5 && Trim(courseType) != ""
                 && (image.Some? || courseImage != "")
  {
    var rec := UpdateCourseRecord(name, title, courseType, image, courseImage);
    CourseSchemaPaths(rec);
    CourseErrorPathsNonEmpty(rec);
    FoldPaths(Validate(CourseSchema, rec));
    NoErrorsIffNoPaths(Validate(CourseSchema, rec));
  }

  /** The "Add New Course" modal. */
  class CreateCourse {
    var name: string
    var title: string
    var courseType: string
    var image: Option<File>
    var errors: map<string, string>

    constructor()
      ensures name == "" && title == "" && courseType == "" && image == None && errors == map[]
    {
      name, title, courseType, image, errors := "", "", "", None, map[];
    }

    /** The file input's change handler: a picked file replaces the image and blanks its error. */
    method ChooseFile(files: seq<File>)
      modifies this
      ensures files != [] ==> image == Some(files[0]) && errors == old(errors)["image" := ""]
      ensures files == [] ==> image == old(image) && errors == old(errors)
      ensures name == old(name) && title == old(title) && courseType == old(courseType)
    {
      if files != [] {
        image := Some(files[0]);
        errors := errors["image" := ""];
      }
    }

    method Submit(outcome: Outcome) returns (sent: Option<Sent>, toast: Toast, closed: bool)
      modifies this
      ensures var errs := Validate(CourseSchema, CreateCourseRecord(old(name), old(title), old(courseType), old(image)));
              errs != [] ==> sent == None && toast == Error(FixErrors) && !closed && errors == Fold(errs)
      ensures var errs := Validate(CourseSchema, CreateCourseRecord(old(name), old(title), old(courseType), old(image)));
              errs == [] && old(image) == None ==>
                sent == None && toast == Error("Please select an image") && !closed
                && errors == map["image" := "Image is required"]
      ensures var errs := Validate(CourseSchema, CreateCourseRecord(old(name), old(title), old(courseType), old(image)));
              errs == [] && old(image).Some? ==>
                sent == Some(Sent(CreateItem, Multipart(CreateCourseForm(old(name), old(title), old(courseType), old(image).value))))
                && errors == map[] && (closed <==> outcome.Succeeded?)
                && toast == (if outcome.Succeeded? then Success("Course created successfully")
                             else Error(FailureText(outcome, "Failed to create course")))
      ensures sent.Some? && outcome.Succeeded? ==> name == "" && title == "" && courseType == "" && image == None
      ensures !(sent.Some? && outcome.Succeeded?) ==>
                name == old(name) && title == old(title) && courseType == old(courseType) && image == old(image)
    {
      errors := map[];
      var errs := Validate(CourseSchema, CreateCourseRecord(name, title, courseType, image));
      if errs != [] {
        errors := CollectErrors(errs);
        sent, toast, closed := None, Error(FixErrors), false;
        return;
      }
      match image {
        case None =>
          errors := map["image" := "Image is required"];
          sent, toast, closed := None, Error("Please select an image"), false;
        case Some(file) =>
          sent := Some(Sent(CreateItem, Multipart(CreateCourseForm(name, title, courseType, file))));
          toast, closed := Settle(outcome);
      }
    }

    /** After the create mutation settles: a success resets the form and closes it, a failure keeps everything. */
    method Settle(outcome: Outcome) returns (toast: Toast, closed: bool)
      modifies this
      ensures closed <==> outcome.Succeeded?
      ensures toast == (if outcome.Succeeded? then Success("Course created successfully")
                        else Error(FailureText(outcome, "Failed to create course")))
      ensures outcome.Succeeded? ==> name == "" && title == "" && courseType == "" && image == None && errors == map[]
      ensures !outcome.Succeeded? ==>
                name == old(name) && title == old(title) && courseType == old(courseType) && image == old(image)
                && errors == old(errors)
    {
      if outcome.Succeeded? {
        toast := Success("Course created successfully");
        name, title, courseType, image, errors := "", "", "", None, map[];
        closed := true;
      } else {
        toast := Error(FailureText(outcome, "Failed to create course"));
        closed := false;
      }
    }
  }

  /** The "Update Course" modal; `course` is the row being edited. */
  class UpdateCourse {
    var name: string
    var title: string
    var courseType: string
    var image: Option<File>
    var errors: map<string, string>

    constructor(course: Course)
      ensures name == course.name && title == course.title && courseType == course.courseType
      ensures image == None && errors == map[]
    {
      name, title, courseType, image, errors := course.name, course.title, course.courseType, None, map[];
    }

    /** The effect on `[isOpen, course]`: opening reloads the inputs from the course. */
    method Sync(isOpen: bool, course: Course)
      modifies this
      ensures isOpen ==> name == course.name && title == course.title && courseType == course.courseType
                         && image == None && errors == map[]
      ensures !isOpen ==> name == old(name) && title == old(title) && courseType == old(courseType)
                          && image == old(image) && errors == old(errors)
    {
      if isOpen {
        name, title, courseType, image, errors := course.name, course.title, course.courseType, None, map[];
      }
    }

    /** The file input's change handler: only the image changes. */
    method ChooseFile(files: seq<File>)
      modifies this
      ensures image == if files != [] then Some(files[0]) else old(image)
      ensures name == old(name) && title == old(title) && courseType == old(courseType) && errors == old(errors)
    {
      if files != [] {
        image := Some(files[0]);
      }
    }

    method Submit(course: Course, outcome: Outcome) returns (sent: Option<Sent>, toast: Toast, closed: bool)
      modifies this
      ensures name == old(name) && title == old(title) && courseType == old(courseType) && image == old(image)
      ensures var errs := Validate(CourseSchema, UpdateCourseRecord(old(name), old(title), old(courseType), old(image), course.image));
              errs != [] ==> sent == None && toast == Error(FixErrors) && !closed && errors == Fold(errs)
      ensures var errs := Validate(CourseSchema, UpdateCourseRecord(old(name), old(title), old(courseType), old(image), course.image));
              errs == [] ==>
                sent == Some(Sent(UpdateItem(course.id), Multipart(UpdateCourseForm(old(name), old(title), old(courseType), old(image)))))
                && errors == map[] && (closed <==> outcome.Succeeded?)
                && toast == (if outcome.Succeeded? then Success("Course updated successfully")
                             else Error(FailureText(outcome, "Failed to update course")))
    {
      errors := map[];
      var errs := Validate(CourseSchema, UpdateCourseRecord(name, title, courseType, image, course.image));
      if errs != [] {
        errors := CollectErrors(errs);
        sent, toast, closed := None, Error(FixErrors), false;
        return;
      }
      sent := Some(Sent(UpdateItem(course.id), Multipart(UpdateCourseForm(name, title, courseType, image))));
      if outcome.Succeeded? {
        toast, closed := Success("Course updated successfully"), true;
      } else {
        toast, closed := Error(FailureText(outcome, "Failed to update course")), false;
      }
    }
  }
}
