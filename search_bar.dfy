/**
 * The search bar: one text field validated by a schema, a submit that hands
 * the text to `onSubmit`, a reset, and the resync from the `searchQuery` prop.
 */
module SearchBar {
  import opened Wrappers

  const QueryRequired: string := "Restaurant name is required"

  /** The schema: at least one character; whitespace counts, nothing is trimmed. */
  function QueryIssue(query: string): (r: Option<string>)
    ensures r.None? <==> |query| >= 1
    ensures r.Some? ==> r.value == QueryRequired
  {
    if |query| >= 1 then None else Some(QueryRequired)
  }

  /**
   * The form as the component holds it. The callbacks are recorded: `submitted`
   * lists the texts passed to `onSubmit`, `resets` counts calls of `onReset`.
   * `submittedOnce` is the form's `isSubmitted`: after a submit, successful or
   * not, every change re-validates the field; a reset clears it.
   */
  class Bar {
    var field: string
    var error: Option<string>
    const hasOnReset: bool
    var submitted: seq<string>
    var resets: nat
    var submittedOnce: bool

    /** `defaultValues: { searchQuery }`. */
    constructor (searchQuery: string, hasOnReset: bool)
      ensures field == searchQuery && error == None && this.hasOnReset == hasOnReset
      ensures submitted == [] && resets == 0 && !submittedOnce
    {
      field := searchQuery;
      error := None;
      this.hasOnReset := hasOnReset;
      submitted := [];
      resets := 0;
      submittedOnce := false;
    }

    /** The user types into the field; once submitted, the schema re-runs on each change. */
    method Type(text: string)
      modifies this
      ensures field == text
      ensures error == if old(submittedOnce) then QueryIssue(text) else old(error)
      ensures submittedOnce == old(submittedOnce) && submitted == old(submitted) && resets == old(resets)
    {
      field := text;
      if submittedOnce {
        error := QueryIssue(text);
      }
    }

    /** The effect on `searchQuery`: the field follows the prop. */
    method SyncProp(searchQuery: string)
      modifies this
      ensures field == searchQuery && error == None && !submittedOnce
      ensures submitted == old(submitted) && resets == old(resets)
    {
      field := searchQuery;
      error := None;
      submittedOnce := false;
    }

    /** `handleReset`: empty the field, then call `onReset` if there is one; never `onSubmit`. */
    method HandleReset()
      modifies this
      ensures field == "" && error == None && !submittedOnce
      ensures resets == old(resets) + (if hasOnReset then 1 else 0)
      ensures submitted == old(submitted)
    {
      field := "";
      error := None;
      submittedOnce := false;
      if hasOnReset {
        resets := resets + 1;
      }
    }

    /** `handleSubmit(onSubmit)`: the text goes out unchanged, or the error is shown. */
    method Submit()
      modifies this
      ensures field == old(field) && resets == old(resets) && submittedOnce
      ensures error == QueryIssue(field)
      ensures |field| >= 1 ==> submitted == old(submitted) + [field]
      ensures |field| == 0 ==> submitted == old(submitted) && error == Some(QueryRequired)
    {
      error := QueryIssue(field);
      submittedOnce := true;
      if error.None? {
        submitted := submitted + [field];
      }
    }
  }

  /** A whitespace-only query passes the schema. */
  lemma WhitespaceAccepted()
    ensures QueryIssue(" ") == None
    ensures QueryIssue("") == Some(QueryRequired)
  {
  }
}
