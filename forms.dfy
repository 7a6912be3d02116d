/**
 * What the six create/update modals share: folding Yup's error list into the
 * per-field error map, the toast texts, and the bodies they send.
 */
module Forms {
  import opened Wrappers
  import opened Validation
  import Services

  /** A `File` picked in an `<input type="file">`; only its identity matters here. */
  datatype File = File(name: string)

  /** One FormData entry: a text value or the picked file. */
  datatype FormValue = Text(text: string) | Blob(file: File)

  /** `new FormData()` after its `append` calls, in order. */
  type FormData = seq<(string, FormValue)>

  /** A request body: multipart for books and courses, a JSON object for newspapers. */
  datatype Body = Multipart(parts: FormData) | Json(fields: seq<(string, string)>)

  /** The entry names of a body, in order. */
  function Names<V>(entries: seq<(string, V)>): seq<string> {
    seq(|entries|, k requires 0 <= k < |entries| => entries[k].0)
  }

  /** The mutation a modal fires and the body it carries. */
  datatype Sent = Sent(mutation: Services.Mutation, body: Body)

  /** How `.unwrap()` settles: fulfilled, or rejected with an optional `error.data.message`. */
  datatype Outcome = Succeeded | Failed(serverMessage: Option<string>)

  datatype Toast = Success(text: string) | Error(text: string)

  const FixErrors: string := "Please fix the validation errors"

  /** `error?.data?.message || fallback` for a rejected mutation. */
  function FailureText(outcome: Outcome, fallback: string): (t: string)
    requires outcome.Failed?
    ensures Truthy(outcome.serverMessage) ==> t == outcome.serverMessage.value
    ensures !Truthy(outcome.serverMessage) ==> t == fallback
  {
    OrElse(outcome.serverMessage, fallback)
  }

  /**
   * The map the `forEach` over `validationError.inner` builds: errors are taken in
   * order, one with an empty path is skipped, a later message for a path
   * overwrites an earlier one.
   */
  function Fold(errs: seq<ValidationError>): map<string, string> {
    if errs == [] then map[]
    else
      var m := Fold(errs[..|errs| - 1]);
      var e := errs[|errs| - 1];
      if e.path != "" then m[e.path := e.message] else m
  }

  /** The catch block's loop. */
  method CollectErrors(errs: seq<ValidationError>) returns (m: map<string, string>)
    ensures m == Fold(errs)
  {
    m := map[];
    var i := 0;
    while i < |errs|
      invariant 0 <= i <= |errs|
      invariant m == Fold(errs[..i])
    {
      var e := errs[i];
      if e.path != "" {
        m := m[e.path := e.message];
      }
      i := i + 1;
      assert errs[..i][..i - 1] == errs[..i - 1];
    }
    assert errs[..|errs|] == errs;
  }

  /** The error map has a key for exactly each non-empty path reported. */
  lemma {:induction false} FoldKeys(errs: seq<ValidationError>)
    ensures Fold(errs).Keys == set e | e in errs && e.path != "" :: e.path
  {
    if errs != [] {
      var init := errs[..|errs| - 1];
      FoldKeys(init);
      assert errs == init + [errs[|errs| - 1]];
    }
  }

  /** The message shown for a path is the one of the last error reported for it. */
  lemma {:induction false} FoldLastWins(errs: seq<ValidationError>, k: string)
    requires k in Fold(errs)
    ensures exists j :: 0 <= j < |errs| && errs[j] == ValidationError(k, Fold(errs)[k])
                        && forall l :: j < l < |errs| ==> errs[l].path != k
  {
    FoldKeys(errs);
    assert k != "";
    var init := errs[..|errs| - 1];
    var last := errs[|errs| - 1];
    if last.path == k {
      assert Fold(errs) == Fold(init)[k := last.message];
      assert errs[|errs| - 1] == ValidationError(k, Fold(errs)[k]);
    } else {
      assert Fold(errs) == (if last.path != "" then Fold(init)[last.path := last.message] else Fold(init));
      FoldLastWins(init, k);
      var j :| 0 <= j < |init| && init[j] == ValidationError(k, Fold(init)[k])
               && forall l :: j < l < |init| ==> init[l].path != k;
      assert errs[j] == init[j];
      forall l | j < l < |errs| ensures errs[l].path != k {
        if l < |errs| - 1 { assert errs[l] == init[l]; }
      }
    }
  }

  /** When every error of a path carries the same message, that message is shown. */
  lemma FoldSingleMessage(errs: seq<ValidationError>, k: string, msg: string)
    requires k != ""
    requires exists e :: e in errs && e.path == k
    requires forall e :: e in errs && e.path == k ==> e.message == msg
    ensures k in Fold(errs) && Fold(errs)[k] == msg
  {
    FoldKeys(errs);
    var e :| e in errs && e.path == k;
    assert e.path in (set e | e in errs && e.path != "" :: e.path);
    FoldLastWins(errs, k);
  }

  /** The keys of the error map after validation are exactly the failing fields. */
  lemma FoldPaths(errs: seq<ValidationError>)
    requires forall e :: e in errs ==> e.path != ""
    ensures Fold(errs).Keys == ErrorPaths(errs)
  {
    FoldKeys(errs);
  }

  /** Validation passes exactly when no field is flagged. */
  lemma NoErrorsIffNoPaths(errs: seq<ValidationError>)
    ensures errs == [] <==> ErrorPaths(errs) == {}
  {
    if errs != [] {
      assert errs[0].path in ErrorPaths(errs);
    }
  }
}
