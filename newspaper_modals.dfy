/**
 * CreateNewsPaper and UpdateNewsPaper: the two newspaper modals. They send a
 * JSON object rather than a multipart form.
 */
module NewspaperModals {
  import opened Wrappers
  import opened Text
  import opened Types
  import opened Validation
  import opened Forms
  import opened Services

  /** The object both newspaper modals validate: the trimmed title and the raw description. */
  function NewspaperRecord(title: string, description: string): (rec: Record)
    ensures "title" in rec && "description" in rec
    ensures rec["title"] == Trim(title) && rec["description"] == description
  {
    map["title" := Trim(title), "description" := description]
  }

  /** `{ title: title.trim(), description }`: the same two values the modal validated. */
  function NewspaperBody(title: string, description: string): (b: Body)
    ensures b.Json? && Names(b.fields) == ["title", "description"]
    ensures b.fields[0].1 == NewspaperRecord(title, description)["title"]
    ensures b.fields[1].1 == NewspaperRecord(title, description)["description"]
  {
    Json([("title", Trim(title)), ("description", description)])
  }

  /** The fields both newspaper modals flag, and that they pass validation exactly when none is. */
  lemma NewspaperErrorKeys(title: string, description: string)
    ensures Fold(Validate(NewspaperSchema, NewspaperRecord(title, description))).Keys ==
            (if 3 <= |Trim(title)| <= 100 then {} else {"title"})
            + (if |description| >= 10 then {} else {"description"})
    ensures Validate(NewspaperSchema, NewspaperRecord(title, description)) == []
            <==> 3 <= |Trim(title)| <= 100 && |description| >= 10
  {
    var rec := NewspaperRecord(title, description);
    var errs := Validate(NewspaperSchema, rec);
    NewspaperSchemaPaths(rec);
    TrimIdempotent(title);
    NoEmptyPath(errs);
    FoldPaths(errs);
    NoErrorsIffNoPaths(errs);
  }

  /** The "Add New Newspaper" modal. */
  class CreateNewsPaper {
    var title: string
    var description: string
    var errors: map<string, string>

    constructor()
      ensures title == "" && description == "" && errors == map[]
    {
      title, description, errors := "", "", map[];
    }

    method Submit(outcome: Outcome) returns (sent: Option<Sent>, toast: Toast, closed: bool)
      modifies this
      ensures var errs := Validate(NewspaperSchema, NewspaperRecord(old(title), old(description)));
              errs != [] ==> sent == None && toast == Error(FixErrors) && !closed && errors == Fold(errs)
      ensures var errs := Validate(NewspaperSchema, NewspaperRecord(old(title), old(description)));
              errs == [] ==>
                sent == Some(Sent(CreateItem, NewspaperBody(old(title), old(description))))
                && errors == map[] && (closed <==> outcome.Succeeded?)
                && toast == (if outcome.Succeeded? then Success("Newspaper created successfully")
                             else Error(FailureText(outcome, "Failed to create newspaper")))
      ensures sent.Some? && outcome.Succeeded? ==> title == "" && description == ""
      ensures !(sent.Some? && outcome.Succeeded?) ==> title == old(title) && description == old(description)
    {
      errors := map[];
      var errs := Validate(NewspaperSchema, NewspaperRecord(title, description));
      if errs != [] {
        errors := CollectErrors(errs);
        sent, toast, closed := None, Error(FixErrors), false;
        return;
      }
      sent := Some(Sent(CreateItem, NewspaperBody(title, description)));
      if outcome.Succeeded? {
        toast := Success("Newspaper created successfully");
        title, description, errors := "", "", map[];
        closed := true;
      } else {
        toast, closed := Error(FailureText(outcome, "Failed to create newspaper")), false;
      }
    }
  }

  /** The "Update Newspaper" modal; `newspaper` is the row being edited. */
  class UpdateNewsPaper {
    var title: string
    var description: string
    var errors: map<string, string>

    constructor(newspaper: Newspaper)
      ensures title == newspaper.title && description == newspaper.description && errors == map[]
    {
      title, description, errors := newspaper.title, newspaper.description, map[];
    }

    /** The effect on `[isOpen, newspaper]`: opening reloads the inputs. */
    method Sync(isOpen: bool, newspaper: Newspaper)
      modifies this
      ensures isOpen ==> title == newspaper.title && description == newspaper.description && errors == map[]
      ensures !isOpen ==> title == old(title) && description == old(description) && errors == old(errors)
    {
      if isOpen {
        title, description, errors := newspaper.title, newspaper.description, map[];
      }
    }

    method Submit(newspaper: Newspaper, outcome: Outcome) returns (sent: Option<Sent>, toast: Toast, closed: bool)
      modifies this
      ensures title == old(title) && description == old(description)
      ensures var errs := Validate(NewspaperSchema, NewspaperRecord(old(title), old(description)));
              errs != [] ==> sent == None && toast == Error(FixErrors) && !closed && errors == Fold(errs)
      ensures var errs := Validate(NewspaperSchema, NewspaperRecord(old(title), old(description)));
              errs == [] ==>
                sent == Some(Sent(UpdateItem(newspaper.id), NewspaperBody(old(title), old(description))))
                && errors == map[] && (closed <==> outcome.Succeeded?)
                && toast == (if outcome.Succeeded? then Success("Newspaper updated successfully")
                             else Error(FailureText(outcome, "Failed to update newspaper")))
    {
      errors := map[];
      var errs := Validate(NewspaperSchema, NewspaperRecord(title, description));
      if errs != [] {
        errors := CollectErrors(errs);
        sent, toast, closed := None, Error(FixErrors), false;
        return;
      }
      sent := Some(Sent(UpdateItem(newspaper.id), NewspaperBody(title, description)));
      if outcome.Succeeded? {
        toast, closed := Success("Newspaper updated successfully"), true;
      } else {
        toast, closed := Error(FailureText(outcome, "Failed to update newspaper")), false;
      }
    }
  }
}
