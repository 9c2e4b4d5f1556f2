/** The contact form of contact.js: the e-mail pattern, the checks of the submit handler, the
    status line and the submit button's busy state. */
module Contact {
  import opened Strings

  // ---------------------------------------------------------------------------------------
  // validateEmail

  /** A character `[^\s@]` accepts. */
  predicate Plain(c: char) {
    !IsSpace(c) && c != '@'
  }

  /** A match of `[^\s@]+`. */
  predicate Atom(s: string) {
    |s| > 0 && forall i :: 0 <= i < |s| ==> Plain(s[i])
  }

  /** The language of `/^[^\s@]+@[^\s@]+\.[^\s@]+$/`: the text splits as
      `local @ host . tail` with three non-empty runs free of white space and `@`. */
  predicate PatternMatch(s: string) {
    exists i, k :: 0 <= i < k < |s| && s[i] == '@' && s[k] == '.' && Atom(s[..i]) && Atom(s[i + 1..k]) && Atom(s[k + 1..])
  }

  /** The index of the first `c` in `s`. */
  function IndexOf(s: string, c: char): (r: Option<nat>)
    ensures r.Some? ==> r.value < |s| && s[r.value] == c && c !in s[..r.value]
    ensures r.None? ==> c !in s
    decreases |s|
  {
    if s == [] then None
    else if s[0] == c then Some(0)
    else
      var t := IndexOf(s[1..], c);
      assert s == [s[0]] + s[1..];
      if t.Some? then Some(t.value + 1) else None
  }

  /** `validateEmail(email)`: one scan for the `@`, then a check of the part after it. */
  function ValidEmail(s: string): bool {
    var at := IndexOf(s, '@');
    at.Some? && Atom(s[..at.value]) && Host(s[at.value + 1..])
  }

  /** The scan accepts exactly the language of the pattern. */
  lemma ValidEmailSpec(s: string)
    ensures ValidEmail(s) <==> PatternMatch(s)
  {
    if ValidEmail(s) {
      AcceptsMatch(s, IndexOf(s, '@').value);
    }
    if PatternMatch(s) {
      RejectsNoMatch(s);
    }
  }

  /** The part after the `@`: free of white space and `@`, with a `.` that is neither its
      first nor its last character. */
  predicate Host(d: string) {
    (forall j :: 0 <= j < |d| ==> Plain(d[j])) && |d| >= 3 && '.' in d[1..|d| - 1]
  }

  lemma AcceptsMatch(s: string, at: nat)
    requires at < |s| && s[at] == '@' && Atom(s[..at]) && Host(s[at + 1..])
    ensures PatternMatch(s)
  {
    var d := s[at + 1..];
    var j :| 0 <= j < |d| - 2 && d[1..|d| - 1][j] == '.';
    var k := at + 2 + j;
    assert s[k] == '.';
    var host, tail := s[at + 1..k], s[k + 1..];
    forall m | 0 <= m < |host| ensures Plain(host[m]) {
      assert host[m] == d[m];
    }
    forall m | 0 <= m < |tail| ensures Plain(tail[m]) {
      assert tail[m] == d[j + 2 + m];
    }
    assert 0 <= at < k < |s| && s[at] == '@' && s[k] == '.' && Atom(s[..at]) && Atom(s[at + 1..k]) && Atom(s[k + 1..]);
  }

  lemma RejectsNoMatch(s: string)
    requires PatternMatch(s)
    ensures var at := IndexOf(s, '@'); at.Some? && Atom(s[..at.value]) && Host(s[at.value + 1..])
  {
    var i, k :| 0 <= i < k < |s| && s[i] == '@' && s[k] == '.' && Atom(s[..i]) && Atom(s[i + 1..k]) && Atom(s[k + 1..]);
    AtomHasNoAt(s[..i]);
    FirstAt(s, i);
    HostAfter(s, i, k);
  }

  /** An `@` with none before it is the one the scan finds. */
  lemma FirstAt(s: string, i: nat)
    requires i < |s| && s[i] == '@' && '@' !in s[..i]
    ensures IndexOf(s, '@') == Some(i)
  {
    assert s[i] in s;
  }

  lemma AtomHasNoAt(a: string)
    requires Atom(a)
    ensures '@' !in a
  {
    forall j | 0 <= j < |a| ensures a[j] != '@' {
      assert Plain(a[j]);
    }
  }

  /** Two atoms around a dot after the `@` make a host. */
  lemma HostAfter(s: string, i: nat, k: nat)
    requires i < k < |s| && s[k] == '.' && Atom(s[i + 1..k]) && Atom(s[k + 1..])
    ensures Host(s[i + 1..])
  {
    var d := s[i + 1..];
    forall j | 0 <= j < |d| ensures Plain(d[j]) {
      if i + 1 + j < k {
        assert d[j] == s[i + 1..k][j];
      } else if i + 1 + j > k {
        assert d[j] == s[k + 1..][j - (k - i)];
      }
    }
    assert d[1..|d| - 1][k - i - 2] == '.';
  }

  /** The scan splits at the first `@`: with no `@` before it, the address passes exactly
      when the part before is an atom and the part after is a host. */
  lemma ValidEmailParts(local: string, host: string)
    requires '@' !in local
    ensures ValidEmail(local + "@" + host) <==> Atom(local) && Host(host)
  {
    var s := local + "@" + host;
    assert s[..|local|] == local;
    FirstAt(s, |local|);
    assert s[|local| + 1..] == host;
  }

  /** Concrete parts: `a@b.c` and `a.b@c.d.e` pass; a host whose dot opens or closes it, a
      host without a dot or with a second `@`, an empty local part, one with a space, and the
      empty text fail. */
  lemma EmailExamples()
    ensures Atom("a") && Host("b.c") && Atom("a.b") && Host("c.d.e")
    ensures !Host("b.") && !Host(".c") && !Host("bc") && !Host("b@c.d")
    ensures !Atom("") && !Atom("a b") && !ValidEmail("")
  {
    assert "b.c"[1..2][0] == '.';
    assert "c.d.e"[1..4][0] == '.';
    assert !Plain("b@c.d"[1]);
    assert !Plain("a b"[1]);
  }

  // ---------------------------------------------------------------------------------------
  // setStatus

  /** The `type` argument of `setStatus`. */
  datatype Tone = Untyped | Error | Pending | Warning | Success

  function ToneName(t: Tone): string {
    match t
    case Untyped => ""
    case Error => "error"
    case Pending => "pending"
    case Warning => "warning"
    case Success => "success"
  }

  /** `type ? 'contact-status ' + type : 'contact-status'`. */
  function ClassFor(kind: string): string {
    if kind != [] then "contact-status " + kind else "contact-status"
  }

  /** The class always starts with `contact-status`; it is exactly that when the type is
      empty, and otherwise names the type after one space. */
  lemma ClassForSpec(kind: string)
    ensures StartsWith(ClassFor(kind), "contact-status")
    ensures ClassFor(kind) == "contact-status" <==> kind == []
    ensures kind != [] ==> ClassFor(kind)[15..] == kind && ClassFor(kind)[14] == ' '
  {
    if kind != [] {
      assert |ClassFor(kind)| > 14;
    }
  }

  /** Why a post failed: the `error` member of the server's JSON, the HTTP status when there
      is none, or the message of the thrown error. */
  datatype Reason = ServerError(text: string) | ServerStatus(code: nat) | Thrown(text: string)

  /** The messages the handler shows. */
  datatype Message = Blank | FillIn | BadEmail | Sending | Placeholder | Thanks | FailedToSend(reason: Reason)

  /** The text of a message, as the handler writes it. */
  function Text(m: Message): string {
    match m
    case Blank => ""
    case FillIn => "Please fill in all required fields."
    case BadEmail => "Please enter a valid email address."
    case Sending => "Sending..."
    case Placeholder => "Form submitted locally — please replace FORM_ID in the form action with your Formspree form ID to enable email delivery."
    case Thanks => "Thanks — your message has been sent successfully!"
    case FailedToSend(r) =>
      "Failed to send: " + (match r
                            case ServerError(e) => e
                            case ServerStatus(code) => "Server responded with " + NatToString(code)
                            case Thrown(e) => e)
  }

  /** The `#contact-status` element: which message it shows and with which type. Its text is
      `Text(message)` and its class `ClassFor(ToneName(tone))`. */
  datatype Status = Status(message: Message, tone: Tone)

  // ---------------------------------------------------------------------------------------
  // The submit handler

  /** `form.elements[...]?.value` for the three inputs: `None` when the input is missing. */
  datatype Fields = Fields(name: Option<string>, email: Option<string>, message: Option<string>)

  /** The trimmed value of an input; a missing input gives the empty (falsy) text. */
  function Entered(v: Option<string>): string {
    if v.Some? then Trim(v.value) else []
  }

  /** What `fetch` produced: a thrown error with its message, or a response with its `ok`
      flag, its status code and the `error` member of its JSON body (`None` when the body
      does not parse or the member is missing). */
  datatype Response = Threw(message: string) | Reply(ok: bool, code: nat, error: Option<string>)

  /** How far a submission went: stopped by a check, warned about the placeholder action,
      or posted with or without success. */
  datatype Stage = Rejected | NotConfigured | Delivered | Undelivered

  /** `(data && data.error) ? data.error : ...`, and the thrown error's message. */
  function ReasonOf(r: Response): Reason {
    match r
    case Threw(m) => Thrown(m)
    case Reply(_, code, error) => if error.Some? && error.value != [] then ServerError(error.value) else ServerStatus(code)
  }

  /** Every field filled after trimming. */
  predicate Filled(f: Fields) {
    Entered(f.name) != [] && Entered(f.email) != [] && Entered(f.message) != []
  }

  /** The form still has no endpoint: its action is empty or holds the `FORM_ID` placeholder. */
  predicate Unconfigured(action: string) {
    action == [] || Contains(action, "FORM_ID")
  }

  /** The stage a submission that passed the checks reaches. */
  function SendStage(action: string, r: Response): Stage {
    if Unconfigured(action) then NotConfigured
    else if r.Reply? && r.ok then Delivered
    else Undelivered
  }

  /** The status line such a submission leaves. */
  function SendStatus(action: string, r: Response): Status {
    match SendStage(action, r)
    case Delivered => Status(Thanks, Success)
    case Undelivered => Status(FailedToSend(ReasonOf(r)), Error)
    case _ => Status(Placeholder, Warning)
  }

  /** The stage the handler reaches for these fields, action and response. */
  function StageOf(f: Fields, action: string, r: Response): Stage {
    if !Filled(f) || !ValidEmail(Entered(f.email)) then Rejected else SendStage(action, r)
  }

  /** The status line the handler leaves. */
  function StatusOf(f: Fields, action: string, r: Response): Status {
    if !Filled(f) then Status(FillIn, Error)
    else if !ValidEmail(Entered(f.email)) then Status(BadEmail, Error)
    else SendStatus(action, r)
  }

  /** An empty field is reported before the address is looked at, and nothing is sent. */
  lemma RequiredFirst(f: Fields, action: string, r: Response)
    requires !Filled(f)
    ensures StageOf(f, action, r) == Rejected && StatusOf(f, action, r) == Status(FillIn, Error)
  {
  }

  /** With every field filled, the submission stops exactly when the address does not match
      the pattern. */
  lemma EmailGate(f: Fields, action: string, r: Response)
    requires Filled(f)
    ensures StageOf(f, action, r) == Rejected <==> !PatternMatch(Entered(f.email))
    ensures !PatternMatch(Entered(f.email)) ==> StatusOf(f, action, r) == Status(BadEmail, Error)
  {
    ValidEmailSpec(Entered(f.email));
  }

  /** A valid form with an empty action or one still naming `FORM_ID` gets the warning and
      posts nothing. */
  lemma PlaceholderAction(f: Fields, action: string, r: Response)
    requires StageOf(f, action, r) != Rejected
    ensures StageOf(f, action, r) == NotConfigured <==> Unconfigured(action)
    ensures StageOf(f, action, r) == NotConfigured ==> StatusOf(f, action, r) == Status(Placeholder, Warning)
  {
  }

  /** After a post: success exactly for an ok response; otherwise the failure is shown as
      an error naming the server's error, its status code, or the thrown message. */
  lemma PostOutcome(f: Fields, action: string, r: Response)
    requires StageOf(f, action, r) in {Delivered, Undelivered}
    ensures StageOf(f, action, r) == Delivered <==> r.Reply? && r.ok
    ensures StageOf(f, action, r) == Delivered ==> StatusOf(f, action, r) == Status(Thanks, Success)
    ensures StageOf(f, action, r) == Undelivered ==> StatusOf(f, action, r) == Status(FailedToSend(ReasonOf(r)), Error)
  {
  }

  /** The text of a failure: `Failed to send: ` and the server's non-empty error, else
      `Server responded with ` and the status code, or the thrown message. */
  lemma FailureText(r: Response)
    ensures Text(FailedToSend(ReasonOf(r))) == "Failed to send: " + FailureDetail(r)
    ensures r.Reply? && r.error.Some? && r.error.value != [] ==> FailureDetail(r) == r.error.value
    ensures r.Reply? && !(r.error.Some? && r.error.value != []) ==>
              FailureDetail(r) == "Server responded with " + NatToString(r.code)
              && DigitsValue(FailureDetail(r)[22..]) == r.code
    ensures r.Threw? ==> FailureDetail(r) == r.message
  {
    if r.Reply? && !(r.error.Some? && r.error.value != []) {
      NatToStringRoundTrip(r.code);
      assert FailureDetail(r)[22..] == NatToString(r.code);
    }
  }

  /** The part after `Failed to send: `. */
  function FailureDetail(r: Response): string {
    match r
    case Threw(m) => m
    case Reply(_, code, error) =>
      if error.Some? && error.value != [] then error.value else "Server responded with " + NatToString(code)
  }

  /** `form.reset()`: every input that exists goes back to its default value (empty when the
      markup gives none); a missing input stays missing. */
  function Reset(f: Fields, defaults: Fields): Fields {
    Fields(ResetInput(f.name, defaults.name), ResetInput(f.email, defaults.email),
           ResetInput(f.message, defaults.message))
  }

  function ResetInput(v: Option<string>, default: Option<string>): Option<string> {
    if v.None? then None else Some(if default.Some? then default.value else "")
  }

  /** After a reset to blank defaults, submitting again only asks for the required fields. */
  lemma ResubmitAfterReset(f: Fields, defaults: Fields, action: string, r: Response)
    requires Entered(defaults.name) == [] || Entered(defaults.email) == [] || Entered(defaults.message) == []
    ensures StageOf(Reset(f, defaults), action, r) == Rejected
    ensures StatusOf(Reset(f, defaults), action, r) == Status(FillIn, Error)
  {
  }

  /** The form of contact.html while its submit handler runs. */
  class ContactForm {
    var fields: Fields
    /** The inputs' default values from the markup, which `form.reset()` restores. */
    var defaults: Fields
    /** `form.action`. */
    var action: string
    var status: Status
    /** The submit button's `disabled`. */
    var disabled: bool
    /** Whether the button carries `aria-busy`. */
    var busy: bool
    /** The URLs posted to, in order. */
    var posts: seq<string>
    /** How many times `form.reset()` ran. */
    var resets: nat

    constructor (f: Fields, markup: Fields, url: string)
      ensures fields == f && defaults == markup && action == url
      ensures status == Status(Blank, Untyped) && !disabled && !busy
      ensures posts == [] && resets == 0
    {
      fields := f;
      defaults := markup;
      action := url;
      status := Status(Blank, Untyped);
      disabled := false;
      busy := false;
      posts := [];
      resets := 0;
    }

    /** The submit handler, with the response `fetch` would give. Every attempt that gets
        past the checks ends with the button enabled and not busy. */
    method Submit(r: Response)
      modifies this`status, this`disabled, this`busy, this`posts, this`resets, this`fields
      ensures status == StatusOf(old(fields), action, r)
      ensures var stage := StageOf(old(fields), action, r);
              && posts == old(posts) + (if stage == Delivered || stage == Undelivered then [action] else [])
              && resets == old(resets) + (if stage == Delivered then 1 else 0)
              && fields == (if stage == Delivered then Reset(old(fields), defaults) else old(fields))
              && (stage != Rejected ==> !disabled && !busy)
              && (stage == Rejected ==> disabled == old(disabled) && busy == old(busy))
    {
      status := Status(Blank, Untyped);
      var name := Entered(fields.name);
      var email := Entered(fields.email);
      var message := Entered(fields.message);
      if name == [] || email == [] || message == [] {
        status := Status(FillIn, Error);
        return;
      }
      if !ValidEmail(email) {
        status := Status(BadEmail, Error);
        return;
      }
      Send(r);
    }

    /** The part of the handler after the checks: the button goes busy, the placeholder
        action is caught, the form is posted and the outcome shown; the `finally` block
        re-enables the button. */
    method Send(r: Response)
      modifies this`status, this`disabled, this`busy, this`posts, this`resets, this`fields
      ensures status == SendStatus(action, r)
      ensures var stage := SendStage(action, r);
              && posts == old(posts) + (if stage != NotConfigured then [action] else [])
              && resets == old(resets) + (if stage == Delivered then 1 else 0)
              && fields == (if stage == Delivered then Reset(old(fields), defaults) else old(fields))
              && !disabled && !busy
    {
      disabled := true;
      busy := true;
      status := Status(Sending, Pending);
      if action == [] || Contains(action, "FORM_ID") {
        status := Status(Placeholder, Warning);
        disabled := false;
        busy := false;
        return;
      }
      posts := posts + [action];
      match r {
        case Threw(m) =>
          status := Status(FailedToSend(Thrown(m)), Error);
        case Reply(ok, code, error) =>
          if ok {
            status := Status(Thanks, Success);
            fields := Reset(fields, defaults);
            resets := resets + 1;
          } else {
            var reason := if error.Some? && error.value != [] then ServerError(error.value) else ServerStatus(code);
            status := Status(FailedToSend(reason), Error);
          }
      }
      disabled := false;
      busy := false;
    }
  }
}
