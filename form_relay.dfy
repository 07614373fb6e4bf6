/**
 * The submission handler of main.js (handleFormSubmission, main.js:817-860):
 * on submit the spinner is shown and the button disabled, one request goes to
 * the form relay, and the reply decides the banner, whether the form is
 * cleared, and clears the busy state again. The request itself is abstracted
 * to the reply it produces.
 */
module FormRelay {
  import opened Wrappers

  /** One entry of the relay's `errors` list; its `message` may be absent. */
  datatype ErrorEntry = ErrorEntry(message: Option<string>)

  /** What the `fetch` chain delivers: a parsed JSON body with its `ok` flag
      (by truthiness) and its `errors` list (empty when absent), or a
      rejection, from the network or from a body that is not JSON. */
  datatype Reply = Body(ok: bool, errors: seq<ErrorEntry>) | TransportFailure

  /** The alert class of a banner: `alert-success` or `alert-danger`. */
  datatype BannerKind = Success | Danger

  datatype Banner = Banner(message: string, kind: BannerKind)

  /** The busy state of a form: whether the spinner is visible and whether
      the submit button is disabled. */
  datatype Busy = Busy(spinnerShown: bool, buttonDisabled: bool)

  /** The result of handling a reply. */
  datatype Outcome = Outcome(banner: Banner, resetForm: bool, busy: Busy)

  const GenericFailure: string := "Oops! Something went wrong. Please try again later."
  const NetworkFailure: string := "Network error. Please try again later."
  const Separator: string := ", "

  /** The submit handler before the request (main.js:829-830): spinner shown,
      button disabled, whatever the state was. */
  function BeginSubmit(b: Busy): (r: Busy)
    ensures r.spinnerShown && r.buttonDisabled
  {
    Busy(true, true)
  }

  /** `err.message` as `Array.prototype.join` renders it: an absent message
      becomes the empty string. */
  function MessageText(e: ErrorEntry): string
  {
    match e.message
    case Some(m) => m
    case None => ""
  }

  /** `errors.map(err => err.message)`. */
  function Messages(errors: seq<ErrorEntry>): (r: seq<string>)
    ensures |r| == |errors|
    ensures forall i :: 0 <= i < |errors| ==> r[i] == MessageText(errors[i])
  {
    if errors == [] then [] else [MessageText(errors[0])] + Messages(errors[1..])
  }

  /** `parts.join(sep)`. */
  function Join(parts: seq<string>, sep: string): (r: string)
    ensures |parts| == 1 ==> r == parts[0]
  {
    if parts == [] then ""
    else if |parts| == 1 then parts[0]
    else parts[0] + sep + Join(parts[1..], sep)
  }

  /** Where part `k` starts in `Join(parts, sep)`. */
  function Offset(parts: seq<string>, sep: string, k: nat): nat
    requires k <= |parts|
  {
    if k == 0 then 0 else |parts[0]| + |sep| + Offset(parts[1..], sep, k - 1)
  }

  /** Every part appears, intact and in order, in the joined text: the
      banner shows each error message the relay sent. */
  lemma {:induction false} JoinShowsEveryPart(parts: seq<string>, sep: string, k: nat)
    requires k < |parts|
    ensures Offset(parts, sep, k) + |parts[k]| <= |Join(parts, sep)|
    ensures Join(parts, sep)[Offset(parts, sep, k)..Offset(parts, sep, k) + |parts[k]|] == parts[k]
    decreases k
  {
    if |parts| == 1 {
    } else if k == 0 {
      assert Join(parts, sep) == parts[0] + (sep + Join(parts[1..], sep));
    } else {
      var rest := Join(parts[1..], sep);
      JoinShowsEveryPart(parts[1..], sep, k - 1);
      var o := Offset(parts[1..], sep, k - 1);
      var prefix := parts[0] + sep;
      assert Join(parts, sep) == prefix + rest;
      assert parts[1..][k - 1] == parts[k];
      assert (prefix + rest)[|prefix| + o..|prefix| + o + |parts[k]|] == rest[o..o + |parts[k]|];
    }
  }

  /** Between part `k` and part `k + 1` the joined text holds exactly the
      separator, and part `k + 1` starts right after it. */
  lemma {:induction false} JoinSeparatesParts(parts: seq<string>, sep: string, k: nat)
    requires k + 1 < |parts|
    ensures Offset(parts, sep, k + 1) == Offset(parts, sep, k) + |parts[k]| + |sep|
    ensures Offset(parts, sep, k) + |parts[k]| + |sep| <= |Join(parts, sep)|
    ensures Join(parts, sep)[Offset(parts, sep, k) + |parts[k]|..Offset(parts, sep, k) + |parts[k]| + |sep|] == sep
    decreases k
  {
    var rest := Join(parts[1..], sep);
    var prefix := parts[0] + sep;
    assert Join(parts, sep) == prefix + rest;
    if k == 0 {
      assert (prefix + rest)[|parts[0]|..|parts[0]| + |sep|] == sep;
    } else {
      JoinSeparatesParts(parts[1..], sep, k - 1);
      var o := Offset(parts[1..], sep, k - 1);
      assert parts[1..][k - 1] == parts[k];
      assert (prefix + rest)[|prefix| + o + |parts[k]|..|prefix| + o + |parts[k]| + |sep|]
          == rest[o + |parts[k]|..o + |parts[k]| + |sep|];
    }
  }

  /** The joined text ends with the last part: it holds the parts and the
      separators between them and nothing else. */
  lemma {:induction false} JoinLength(parts: seq<string>, sep: string)
    requires |parts| >= 1
    ensures |Join(parts, sep)| == Offset(parts, sep, |parts| - 1) + |parts[|parts| - 1]|
    decreases |parts|
  {
    if |parts| > 1 {
      JoinLength(parts[1..], sep);
      assert parts[1..][|parts| - 2] == parts[|parts| - 1];
    }
  }

  /** The reply branches of the submit handler (main.js:840-858). Whatever
      the reply, the spinner is hidden and the button enabled again. A reply
      with `ok` shows the form's success message as a success banner and
      clears the form; otherwise the relay's error messages, joined by ", ",
      or the generic failure text when there are none, show as a danger
      banner; a rejection shows the network-error text. Only `ok` clears the
      form. */
  function HandleReply(reply: Reply, successMessage: string): (r: Outcome)
    ensures !r.busy.spinnerShown && !r.busy.buttonDisabled
    ensures r.resetForm <==> reply.Body? && reply.ok
    ensures r.banner.kind == Success <==> r.resetForm
    ensures reply.Body? && reply.ok ==> r.banner.message == successMessage
    ensures reply.Body? && !reply.ok && |reply.errors| > 0 ==>
      r.banner.message == Join(Messages(reply.errors), Separator)
    ensures reply.Body? && !reply.ok && |reply.errors| == 0 ==> r.banner.message == GenericFailure
    ensures reply.TransportFailure? ==> r.banner.message == NetworkFailure
  {
    var idle := Busy(false, false);
    match reply
    case Body(ok, errors) =>
      if ok then Outcome(Banner(successMessage, Success), true, idle)
      else if |errors| > 0 then
        Outcome(Banner(Join(Messages(errors), Separator), Danger), false, idle)
      else Outcome(Banner(GenericFailure, Danger), false, idle)
    case TransportFailure => Outcome(Banner(NetworkFailure, Danger), false, idle)
  }

  /** A submission keeps the form busy until its reply is handled, and every
      reply ends the busy state (main.js:829-830, 841-842, 855-856). */
  lemma BusyFromSubmitUntilReply(b: Busy, reply: Reply, successMessage: string)
    ensures BeginSubmit(b).spinnerShown && BeginSubmit(b).buttonDisabled
    ensures !HandleReply(reply, successMessage).busy.spinnerShown
    ensures !HandleReply(reply, successMessage).busy.buttonDisabled
  {
  }

  /** A failed reply with error entries shows every one of their messages,
      in order. */
  lemma {:induction false} ErrorRepliesShowEachMessage(errors: seq<ErrorEntry>, k: nat, successMessage: string)
    requires 0 <= k < |errors|
    ensures var text := HandleReply(Body(false, errors), successMessage).banner.message;
      var at := Offset(Messages(errors), Separator, k);
      at + |MessageText(errors[k])| <= |text| && text[at..at + |MessageText(errors[k])|] == MessageText(errors[k])
  {
    var parts := Messages(errors);
    assert HandleReply(Body(false, errors), successMessage).banner.message == Join(parts, Separator);
    assert parts[k] == MessageText(errors[k]);
    JoinShowsEveryPart(parts, Separator, k);
  }

  /** A failed reply with a single error entry shows its message verbatim. */
  lemma SingleErrorShownVerbatim(e: ErrorEntry, successMessage: string)
    ensures HandleReply(Body(false, [e]), successMessage).banner == Banner(MessageText(e), Danger)
  {
    assert Messages([e]) == [MessageText(e)];
  }

  /** The relay's example reply with the one error "Email required". */
  lemma EmailRequiredExample(successMessage: string)
    ensures HandleReply(Body(false, [ErrorEntry(Some("Email required"))]), successMessage).banner
         == Banner("Email required", Danger)
  {
  }
}
