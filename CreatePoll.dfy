/**
 * The poll creation form: its answer-choice list, kept between two and six entries, and the
 * submit handler, which checks the session and the choices before building the request.
 */
module CreatePoll {
  import opened Wrappers
  import opened Types
  import opened Text
  import opened Lists

  const MaxOptions: nat := 6
  const MinOptions: nat := 2
  const MinValidOptions: nat := 3

  /** An answer choice that is not blank once trimmed. */
  predicate NonBlank(option: string) {
    Trim(option) != ""
  }

  /** `validOptions`: the non-blank choices, in the order they were entered. */
  function ValidOptions(options: seq<string>): (r: seq<string>)
    ensures |r| == CountWhere(options, NonBlank)
    ensures forall o :: o in r <==> o in options && !AllSpace(o)
    ensures IsSubsequence(r, options)
  {
    forall o | o in options ensures NonBlank(o) <==> !AllSpace(o) {
      TrimEmptyIffAllSpace(o);
    }
    Filter(options, NonBlank)
  }

  /** The request body sent to the create endpoint. `durationDays` is the duration chosen in
      the form; the server is sent the end date computed from it. */
  datatype PollPayload = PollPayload(
    question: string,
    options: seq<string>,
    category: string,
    isAnonymous: bool,
    durationDays: Option<string>,
    visibility: string,
    imageUrl: Option<string>,
    createdByUserId: Option<int>)

  /** `imageUrl.trim() || undefined`. */
  function OptionalUrl(imageUrl: string): (r: Option<string>)
    ensures r.None? <==> AllSpace(imageUrl)
    ensures r.Some? ==> r.value == Trim(imageUrl)
  {
    TrimEmptyIffAllSpace(imageUrl);
    if Trim(imageUrl) == "" then None else Some(Trim(imageUrl))
  }

  /** What submitting the form leads to, before any request is made. */
  datatype Check = NotAuthenticated | TooFewChoices | Ready(payload: PollPayload)

  /** The checks of the submit handler: the session first, then the choices. */
  function CheckSubmit(question: string, imageUrl: string, options: seq<string>, isAnonymous: bool,
                       duration: Option<string>, visibility: string,
                       token: Option<string>, user: Option<User>): (c: Check)
    ensures !TruthyString(token) || user.None? ==> c == NotAuthenticated
    ensures TruthyString(token) && user.Some? && |ValidOptions(options)| < MinValidOptions ==> c == TooFewChoices
    ensures TruthyString(token) && user.Some? && |ValidOptions(options)| >= MinValidOptions ==> c.Ready?
  {
    if !TruthyString(token) || user.None? then NotAuthenticated
    else
      var valid := ValidOptions(options);
      if |valid| < 3 then TooFewChoices
      else Ready(PollPayload(Trim(question), valid, "Movies", isAnonymous,
                             if TruthyString(duration) then duration else None,
                             visibility, OptionalUrl(imageUrl), ParseInt(user.value.id)))
  }

  /** What a ready form sends: the trimmed question, exactly the non-blank choices (at least
      three), category "Movies", the parsed user id, the optional url and duration, and the
      anonymity and visibility settings as chosen. */
  lemma CheckSubmitPayload(question: string, imageUrl: string, options: seq<string>, isAnonymous: bool,
                           duration: Option<string>, visibility: string,
                           token: Option<string>, user: Option<User>)
    requires CheckSubmit(question, imageUrl, options, isAnonymous, duration, visibility, token, user).Ready?
    ensures var c := CheckSubmit(question, imageUrl, options, isAnonymous, duration, visibility, token, user);
              c.payload.options == ValidOptions(options)
              && |c.payload.options| >= MinValidOptions
              && c.payload.question == Trim(question)
              && c.payload.imageUrl == OptionalUrl(imageUrl)
              && c.payload.createdByUserId == ParseInt(user.value.id)
              && c.payload.category == "Movies"
              && c.payload.durationDays == (if TruthyString(duration) then duration else None)
              && c.payload.isAnonymous == isAnonymous && c.payload.visibility == visibility
  {
  }

  class CreatePollForm {
    var question: string
    var imageUrl: string
    var options: seq<string>
    var isAnonymous: bool
    var duration: Option<string>
    var visibility: string
    var loading: bool
    var error: Option<string>

    /** The number of answer choices stays between two and six. */
    ghost predicate Valid()
      reads this`options
    {
      MinOptions <= |options| <= MaxOptions
    }

    /** The empty form: three blank choices, public, not anonymous, no duration. */
    constructor ()
      ensures Valid()
      ensures question == "" && imageUrl == "" && options == ["", "", ""]
      ensures !isAnonymous && duration == None && visibility == "PUBLIC"
      ensures !loading && error == None
    {
      question := "";
      imageUrl := "";
      options := ["", "", ""];
      isAnonymous := false;
      duration := None;
      visibility := "PUBLIC";
      loading := false;
      error := None;
    }

    /** Editing choice `index` replaces that choice only. */
    method OptionChange(index: nat, value: string)
      requires Valid() && index < |options|
      modifies this`options
      ensures Valid()
      ensures options == old(options)[index := value]
    {
      options := options[index := value];
    }

    /** Adding a choice appends one blank entry while there are fewer than six. */
    method AddOption()
      requires Valid()
      modifies this`options
      ensures Valid()
      ensures old(|options|) < MaxOptions ==> options == old(options) + [""]
      ensures old(|options|) >= MaxOptions ==> options == old(options)
    {
      if |options| < 6 {
        options := options + [""];
      }
    }

    /** Removing choice `index` drops exactly that entry while there are more than two. */
    method RemoveOption(index: int)
      requires Valid()
      modifies this`options
      ensures Valid()
      ensures old(|options|) > MinOptions ==> options == WithoutIndex(old(options), index)
      ensures old(|options|) <= MinOptions ==> options == old(options)
    {
      if |options| > 2 {
        options := WithoutIndex(options, index);
      }
    }

    /** The remove buttons are offered exactly while there are more than three choices: the
        handler's own guard (more than two) then always lets the removal through, and at least
        three choices remain. */
    function RemoveOffered(): (r: bool)
      reads this
      ensures r ==> |options| > MinOptions
      ensures r ==> forall index: int :: |WithoutIndex(options, index)| >= MinValidOptions
      ensures |options| > MinValidOptions ==> r
    {
      |options| > MinValidOptions
    }

    /** Publishing is disabled while a request runs or while the question is blank, that is
        made only of white space. */
    function SubmitDisabled(): (d: bool)
      reads this
      ensures d <==> loading || AllSpace(question)
    {
      TrimEmptyIffAllSpace(question);
      loading || Trim(question) == ""
    }

    /** Submitting, where `created` is the outcome of the create request if it is made (the
        new poll's id, or the thrown message). A failed check sets its message and sends
        nothing; otherwise the payload is sent and the new poll's page opened, or the request's
        message shown. The form ends not loading. */
    method Submit(token: Option<string>, user: Option<User>, created: ApiResult<string>)
      returns (sent: Option<PollPayload>, navigateTo: Option<string>)
      modifies this`loading, this`error
      ensures !loading
      ensures var c := old(CheckSubmit(question, imageUrl, options, isAnonymous, duration, visibility, token, user));
              c.NotAuthenticated? ==> sent == None && navigateTo == None && error == Some("Not authenticated")
      ensures var c := old(CheckSubmit(question, imageUrl, options, isAnonymous, duration, visibility, token, user));
              c.TooFewChoices? ==>
                sent == None && navigateTo == None && error == Some("Please provide at least 3 answer choices")
      ensures var c := old(CheckSubmit(question, imageUrl, options, isAnonymous, duration, visibility, token, user));
              c.Ready? ==> sent == Some(c.payload)
                           && (created.Ok? ==> navigateTo == Some("/poll/" + created.value) && error == None)
                           && (created.Fail? ==> navigateTo == None && error == Some(created.message))
    {
      // The handler clears the error and sets the loading flag before checking; only the state
      // it ends in is modelled, so both fields are written once, at the end.
      var c := CheckSubmit(question, imageUrl, options, isAnonymous, duration, visibility, token, user);
      var message: Option<string> := None;
      sent, navigateTo := None, None;
      match c {
        case NotAuthenticated =>
          message := Some("Not authenticated");
        case TooFewChoices =>
          message := Some("Please provide at least 3 answer choices");
        case Ready(payload) =>
          sent := Some(payload);
          match created {
            case Ok(id) => navigateTo := Some("/poll/" + id);
            case Fail(m) => message := Some(m);
          }
      }
      error, loading := message, false;
    }
  }

  /** Removing through the offered buttons never takes the list below three choices. */
  lemma OfferedRemovalKeepsThree(options: seq<string>, index: int)
    requires |options| > MinValidOptions
    ensures |WithoutIndex(options, index)| >= MinValidOptions
  {
  }

  /** A request always carries at least three choices, none of them blank. */
  lemma PayloadChoicesNonBlank(options: seq<string>)
    ensures forall o :: o in ValidOptions(options) ==> Trim(o) != ""
  {
    forall o | o in ValidOptions(options) ensures Trim(o) != "" {
      TrimEmptyIffAllSpace(o);
    }
  }
}
