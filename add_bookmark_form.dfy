/** The add-bookmark form: four state cells, a submit handler that validates
    the URL, writes one row through the store and, on success, clears the
    fields and emits the "bookmark-added" signal. */
module AddBookmarkForm {
  import opened Records
  import opened Strings

  const InvalidUrlMessage: string := "Please enter a valid URL"

  /** The single row handed to the store's insert. */
  datatype InsertPayload = InsertPayload(title: string, url: string, userId: string)

  class FormState {
    const userId: string
    /** Whether `new URL(u)` returns rather than throws. */
    const urlParses: string -> bool
    var title: string
    var url: string
    var loading: bool
    var error: string
    /** How many "bookmark-added" events this form has dispatched. */
    var signals: nat

    constructor (userId: string, urlParses: string -> bool)
      ensures this.userId == userId && this.urlParses == urlParses
      ensures title == "" && url == "" && !loading && error == "" && signals == 0
    {
      this.userId := userId;
      this.urlParses := urlParses;
      title, url, loading, error, signals := "", "", false, "", 0;
    }

    /** The title input's change handler. */
    method SetTitle(value: string)
      modifies this`title
      ensures title == value
    {
      title := value;
    }

    /** The URL input's change handler. */
    method SetUrl(value: string)
      modifies this`url
      ensures url == value
    {
      url := value;
    }

    /** `handleSubmit` up to the store call. A URL that does not parse, as
        typed and untrimmed, ends the submit with the validation message and
        no request. Otherwise the error is cleared, loading is on, and the
        request carries both fields trimmed and the user's identifier. */
    method Submit() returns (request: Option<InsertPayload>)
      modifies this`error, this`loading
      ensures !urlParses(url) ==> request == None && error == InvalidUrlMessage && !loading
      ensures urlParses(url) ==>
                request == Some(InsertPayload(Trim(title), Trim(url), userId)) && error == "" && loading
    {
      error := "";
      loading := true;
      if !urlParses(url) {
        error := InvalidUrlMessage;
        loading := false;
        return None;
      }
      request := Some(InsertPayload(Trim(title), Trim(url), userId));
    }

    /** `handleSubmit` once the insert has answered. A failure shows the
        store's message and keeps the fields; success clears both fields and
        dispatches exactly one signal. Loading ends either way. */
    method CompleteSubmit(outcome: Outcome)
      modifies this`error, this`loading, this`title, this`url, this`signals
      ensures outcome.Failure? ==>
                error == outcome.message && title == old(title) && url == old(url) && signals == old(signals)
      ensures outcome.Success? ==>
                title == "" && url == "" && signals == old(signals) + 1 && error == old(error)
      ensures !loading
    {
      if outcome.Failure? {
        error := outcome.message;
      } else {
        title := "";
        url := "";
        signals := signals + 1;
      }
      loading := false;
    }

    /** A whole submit whose store call, if one is made, answers `outcome`
        and during which the fields are not edited. */
    method HandleSubmit(outcome: Outcome) returns (request: Option<InsertPayload>)
      modifies this`error, this`loading, this`title, this`url, this`signals
      ensures !loading
      ensures !urlParses(old(url)) ==>
                request == None && error == InvalidUrlMessage &&
                title == old(title) && url == old(url) && signals == old(signals)
      ensures urlParses(old(url)) ==>
                request == Some(InsertPayload(Trim(old(title)), Trim(old(url)), userId))
      ensures urlParses(old(url)) && outcome.Failure? ==>
                error == outcome.message && title == old(title) && url == old(url) && signals == old(signals)
      ensures urlParses(old(url)) && outcome.Success? ==>
                error == "" && title == "" && url == "" && signals == old(signals) + 1
    {
      request := Submit();
      if request.Some? {
        CompleteSubmit(outcome);
      }
    }
  }

  /** An invalid URL never reaches the store and leaves what was typed. */
  method InvalidUrlScenario(parses: string -> bool)
    requires !parses("example")
  {
    var form := new FormState("user-1", parses);
    form.SetTitle("Example");
    form.SetUrl("example");
    var request := form.HandleSubmit(Success);
    assert request == None && form.error == InvalidUrlMessage;
    assert form.title == "Example" && form.url == "example" && form.signals == 0;
  }

  /** A valid URL whose insert fails keeps what was typed; the retry whose
      insert succeeds clears the form and signals once. */
  method StoreScenario(parses: string -> bool, title: string, url: string)
    requires parses(url)
  {
    var form := new FormState("user-1", parses);
    form.SetTitle(title);
    form.SetUrl(url);
    assert form.urlParses(form.url);
    ghost var payload := InsertPayload(Trim(form.title), Trim(form.url), form.userId);
    var request := form.HandleSubmit(Failure("duplicate key"));
    assert request == Some(payload);
    assert form.error == "duplicate key" && form.title == title && form.signals == 0;
    request := form.HandleSubmit(Success);
    assert form.error == "" && form.title == "" && form.url == "" && form.signals == 1 && !form.loading;
  }
}
