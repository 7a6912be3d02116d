/** The records the four collections exchange with their REST back ends. */
module Types {
  import opened Wrappers

  /** IBook. */
  datatype Book = Book(id: string, title: string, description: string, image: string,
                       createdAt: string, updatedAt: string, slug: string)

  /** ICourse (`type` is a reserved word here, so the field is `courseType`). */
  datatype Course = Course(id: string, name: string, title: string, courseType: string, image: string,
                           createdAt: string, updatedAt: string)

  /** INewspaper. */
  datatype Newspaper = Newspaper(id: string, title: string, description: string,
                                 createdAt: string, updatedAt: string, slug: Option<string>)

  /** A contact-us message: the page reads it untyped, so every shown field may be missing. */
  datatype Message = Message(id: string, name: Option<string>, email: Option<string>,
                             message: Option<string>, createdAt: string)

  /** A row of any of the four tables; every row has an `_id`. */
  datatype Entity =
    | BookRow(book: Book)
    | CourseRow(course: Course)
    | NewspaperRow(newspaper: Newspaper)
    | MessageRow(msg: Message)
  {
    function Id(): string {
      match this
      case BookRow(b) => b.id
      case CourseRow(c) => c.id
      case NewspaperRow(n) => n.id
      case MessageRow(m) => m.id
    }

    /** `row[key]` for a property-name accessor; `None` is `undefined`. */
    function Field(key: string): Option<string> {
      if key == "_id" then Some(Id())
      else match this
        case BookRow(b) =>
          if key == "title" then Some(b.title) else if key == "description" then Some(b.description)
          else if key == "image" then Some(b.image) else if key == "createdAt" then Some(b.createdAt)
          else if key == "updatedAt" then Some(b.updatedAt) else if key == "slug" then Some(b.slug)
          else None
        case CourseRow(c) =>
          if key == "name" then Some(c.name) else if key == "title" then Some(c.title)
          else if key == "type" then Some(c.courseType) else if key == "image" then Some(c.image)
          else if key == "createdAt" then Some(c.createdAt) else if key == "updatedAt" then Some(c.updatedAt)
          else None
        case NewspaperRow(n) =>
          if key == "title" then Some(n.title) else if key == "description" then Some(n.description)
          else if key == "createdAt" then Some(n.createdAt) else if key == "updatedAt" then Some(n.updatedAt)
          else if key == "slug" then n.slug
          else None
        case MessageRow(m) =>
          if key == "name" then m.name else if key == "email" then m.email
          else if key == "message" then m.message else if key == "createdAt" then Some(m.createdAt)
          else None
    }
  }

  /** The `pagination` object of a list response; `{}` has every field absent. */
  datatype Pagination = Pagination(currentPage: Option<int>, limit: Option<int>, numberOfPages: Option<int>)

  /** A list response as the pages read it (GetBooksResponse and its siblings). */
  datatype ListResponse = ListResponse(status: string, code: int, message: string, results: int,
                                       pagination: Option<Pagination>, data: seq<Entity>)
}
