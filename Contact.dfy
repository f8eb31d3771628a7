/** The contact form: four text fields, the required-field check after
    trimming, the e-mail pattern, and the `mailto:` link the submit handler
    navigates to. An alert is returned as which of the four it is; whether
    the navigation throws is a parameter. */
module Contact {
  import opened Text
  import opened Wrappers

  datatype Form = Form(name: string, email: string, subject: string, message: string)

  const EmptyForm := Form("", "", "", "")

  /** The four alerts the handler can raise. */
  datatype Alert = MissingFields | InvalidEmail | Opened | Failed

  /** The text each alert shows. */
  function Message(a: Alert): string
  {
    match a
    case MissingFields => "Please fill in all fields."
    case InvalidEmail => "Please enter a valid email address."
    case Opened => "Email client opened! If it didn't open automatically, please email support@sujay.ai directly."
    case Failed => "Error opening email client. Please email support@sujay.ai directly."
  }

  /** Some field is empty once trimmed. */
  predicate AnyBlank(f: Form)
  {
    Trim(f.name) == "" || Trim(f.email) == "" || Trim(f.subject) == "" || Trim(f.message) == ""
  }

  // ---------------------------------------------------------------------
  // The e-mail pattern `^[^\s@]+@[^\s@]+\.[^\s@]+$`

  /** One or more characters of the class `[^\s@]`. */
  predicate Plain(s: string)
  {
    |s| > 0 && forall k :: 0 <= k < |s| ==> !IsSpace(s[k]) && s[k] != '@'
  }

  /** The pattern matches: the string splits at an `@` at `i` and a `.` at
      `j` into three runs of plain characters. */
  predicate SplitsAt(e: string, i: int, j: int)
  {
    0 < i < j < |e| && e[i] == '@' && e[j] == '.'
    && Plain(e[..i]) && Plain(e[i + 1..j]) && Plain(e[j + 1..])
  }

  predicate EmailPattern(e: string)
  {
    exists i, j :: 0 <= i < |e| && 0 <= j < |e| && SplitsAt(e, i, j)
  }

  /** The same set, described in words: no white space, exactly one `@`
      with something before it, and after it a `.` with at least one
      character on each side. */
  predicate EmailShape(e: string)
  {
    (forall k :: 0 <= k < |e| ==> !IsSpace(e[k]))
    && exists i :: 0 < i < |e| && e[i] == '@'
         && (forall k :: 0 <= k < |e| && k != i ==> e[k] != '@')
         && exists j :: i + 1 < j < |e| - 1 && e[j] == '.'
  }

  lemma EmailPatternIsShape(e: string)
    ensures EmailPattern(e) <==> EmailShape(e)
  {
    if EmailPattern(e) {
      var i, j :| 0 <= i < |e| && 0 <= j < |e| && SplitsAt(e, i, j);
      forall k | 0 <= k < |e| ensures !IsSpace(e[k]) && (k != i ==> e[k] != '@') {
        if k < i {
          assert e[k] == e[..i][k];
        } else if i < k < j {
          assert e[k] == e[i + 1..j][k - i - 1];
        } else if j < k {
          assert e[k] == e[j + 1..][k - j - 1];
        }
      }
      assert i + 1 < j < |e| - 1;
    }
    if EmailShape(e) {
      var i :| 0 < i < |e| && e[i] == '@'
               && (forall k :: 0 <= k < |e| && k != i ==> e[k] != '@')
               && exists j :: i + 1 < j < |e| - 1 && e[j] == '.';
      var j :| i + 1 < j < |e| - 1 && e[j] == '.';
      PlainRun(e, 0, i);
      PlainRun(e, i + 1, j);
      PlainRun(e, j + 1, |e|);
      assert SplitsAt(e, i, j);
    }
  }

  lemma PlainRun(e: string, lo: int, hi: int)
    requires 0 <= lo < hi <= |e|
    requires forall k :: lo <= k < hi ==> !IsSpace(e[k]) && e[k] != '@'
    ensures Plain(e[lo..hi])
  {
    forall k | 0 <= k < hi - lo ensures !IsSpace(e[lo..hi][k]) && e[lo..hi][k] != '@' {
      assert e[lo..hi][k] == e[lo + k];
    }
  }

  /** The pattern is matched against the value as typed: leading or trailing
      white space makes it fail, though the required check trims. */
  lemma PaddedEmailRejected(e: string)
    requires |e| > 0 && (IsSpace(e[0]) || IsSpace(e[|e| - 1]))
    ensures !EmailPattern(e)
  {
    EmailPatternIsShape(e);
  }

  // ---------------------------------------------------------------------
  // encodeURIComponent

  /** The characters `encodeURIComponent` leaves as they are. */
  predicate Unreserved(c: char)
  {
    'A' <= c <= 'Z' || 'a' <= c <= 'z' || '0' <= c <= '9'
    || c == '-' || c == '_' || c == '.' || c == '!' || c == '~' || c == '*' || c == '\'' || c == '(' || c == ')'
  }

  /** The UTF-8 bytes of a character. */
  function Utf8(c: char): (r: seq<nat>)
    ensures 1 <= |r| <= 4 && forall k :: 0 <= k < |r| ==> r[k] < 256
  {
    var cp := c as int;
    if cp < 0x80 then [cp]
    else if cp < 0x800 then [0xC0 + cp / 64, 0x80 + cp % 64]
    else if cp < 0x10000 then [0xE0 + cp / 4096, 0x80 + (cp / 64) % 64, 0x80 + cp % 64]
    else [0xF0 + cp / 262144, 0x80 + (cp / 4096) % 64, 0x80 + (cp / 64) % 64, 0x80 + cp % 64]
  }

  function HexDigit(n: nat): (c: char)
    requires n < 16
    ensures ('0' <= c <= '9') || ('A' <= c <= 'F')
  {
    if n < 10 then ('0' as int + n) as char else ('A' as int + n - 10) as char
  }

  /** `%XX` for each byte. */
  function PercentBytes(bytes: seq<nat>): string
    requires forall k :: 0 <= k < |bytes| ==> bytes[k] < 256
  {
    if bytes == [] then ""
    else ['%', HexDigit(bytes[0] / 16), HexDigit(bytes[0] % 16)] + PercentBytes(bytes[1..])
  }

  /** Three characters per byte: a `%` and two upper-case hex digits. */
  lemma {:induction false} PercentBytesShape(bytes: seq<nat>)
    requires forall k :: 0 <= k < |bytes| ==> bytes[k] < 256
    ensures |PercentBytes(bytes)| == 3 * |bytes|
    ensures forall k :: 0 <= k < |PercentBytes(bytes)| ==>
              var c := PercentBytes(bytes)[k]; c == '%' || ('0' <= c <= '9') || ('A' <= c <= 'F')
  {
    if bytes != [] {
      PercentBytesShape(bytes[1..]);
      var head := ['%', HexDigit(bytes[0] / 16), HexDigit(bytes[0] % 16)];
      var tail := PercentBytes(bytes[1..]);
      forall k | 0 <= k < |head + tail|
        ensures var c := (head + tail)[k]; c == '%' || ('0' <= c <= '9') || ('A' <= c <= 'F')
      {
        if k >= 3 {
          assert (head + tail)[k] == tail[k - 3];
        }
      }
    }
  }

  function EncodeChar(c: char): string
  {
    if Unreserved(c) then [c] else PercentBytes(Utf8(c))
  }

  function Encode(s: string): string
  {
    if s == [] then "" else EncodeChar(s[0]) + Encode(s[1..])
  }

  /** Only unreserved characters, `%` and upper-case hex digits come out,
      so no `&`, `=`, `#`, `?` or white space can end the parameter. */
  lemma {:induction false} EncodeSafe(s: string)
    ensures forall k :: 0 <= k < |Encode(s)| ==> Unreserved(Encode(s)[k]) || Encode(s)[k] == '%'
  {
    if s != [] {
      EncodeSafe(s[1..]);
      if !Unreserved(s[0]) {
        PercentBytesShape(Utf8(s[0]));
      }
      var head := EncodeChar(s[0]);
      var tail := Encode(s[1..]);
      forall k | 0 <= k < |head + tail| ensures Unreserved((head + tail)[k]) || (head + tail)[k] == '%' {
        if k >= |head| {
          assert (head + tail)[k] == tail[k - |head|];
        }
      }
    }
  }

  /** A string of unreserved characters is encoded as itself. */
  lemma {:induction false} EncodeUnreserved(s: string)
    requires forall k :: 0 <= k < |s| ==> Unreserved(s[k])
    ensures Encode(s) == s
  {
    if s != [] {
      EncodeUnreserved(s[1..]);
      assert [s[0]] + s[1..] == s;
    }
  }

  // ---------------------------------------------------------------------
  // Submitting

  function MailBody(f: Form): string
  {
    "Name: " + f.name + "\nEmail: " + f.email + "\n\nMessage:\n" + f.message
  }

  const MailtoPrefix := "mailto:support@sujay.ai?"

  function SubjectParam(f: Form): string
  {
    "subject=" + Encode(f.subject)
  }

  function BodyParam(f: Form): string
  {
    "body=" + Encode(MailBody(f))
  }

  /** `mailto:support@sujay.ai?subject=…&body=…`. */
  function MailtoLink(f: Form): string
  {
    MailtoPrefix + Join([SubjectParam(f), BodyParam(f)], "&")
  }

  /** What a submit shows, and the link it navigated to, if any. */
  datatype Outcome = Outcome(alert: Alert, link: Option<string>)

  /** The two checks at the head of the handler, in order: the alert that
      rejects the form, if any. */
  function Rejection(f: Form): Option<Alert>
  {
    if AnyBlank(f) then Some(MissingFields)
    else if !EmailPattern(f.email) then Some(InvalidEmail)
    else None
  }

  /** `handleSubmit`: the form afterwards and the outcome. */
  function Submit(f: Form, navigationFails: bool): (Form, Outcome)
  {
    match Rejection(f)
    case Some(alert) => (f, Outcome(alert, None))
    case None =>
      if navigationFails then (f, Outcome(Failed, Some(MailtoLink(f))))
      else (EmptyForm, Outcome(Opened, Some(MailtoLink(f))))
  }

  /** A blank field is reported first, before the address is looked at; an
      all-blank address is a missing field, not an invalid one. */
  lemma MissingFieldsFirst(f: Form, navigationFails: bool)
    requires AnyBlank(f) || AllSpace(f.email)
    ensures Submit(f, navigationFails) == (f, Outcome(MissingFields, None))
  {
    TrimEmptyIffAllSpace(f.email);
  }

  /** All four fields filled but the address malformed: the form stays and
      nothing is opened. */
  lemma InvalidEmailKeepsForm(f: Form, navigationFails: bool)
    requires !AnyBlank(f) && !EmailShape(f.email)
    ensures Submit(f, navigationFails) == (f, Outcome(InvalidEmail, None))
  {
    EmailPatternIsShape(f.email);
  }

  /** An address with white space around it passes the required check but
      is reported invalid. */
  lemma UntrimmedEmailRejected(f: Form, navigationFails: bool)
    requires !AnyBlank(f) && |f.email| > 0 && (IsSpace(f.email[0]) || IsSpace(f.email[|f.email| - 1]))
    ensures Submit(f, navigationFails) == (f, Outcome(InvalidEmail, None))
  {
    PaddedEmailRejected(f.email);
  }

  /** A valid form opens the link and empties every field. */
  lemma ValidFormOpensAndResets(f: Form)
    requires !AnyBlank(f) && EmailShape(f.email)
    ensures Submit(f, false).0 == EmptyForm
    ensures Submit(f, false).1 == Outcome(Opened, Some(MailtoLink(f)))
  {
    EmailPatternIsShape(f.email);
  }

  /** The link's query has exactly two parameters, the encoded subject and
      the encoded body, whatever the fields hold. */
  lemma LinkHasTwoParameters(f: Form)
    ensures SplitOn(MailtoLink(f)[|MailtoPrefix|..], '&') == [SubjectParam(f), BodyParam(f)]
  {
    var params := [SubjectParam(f), BodyParam(f)];
    ParamFree("subject=", f.subject);
    ParamFree("body=", MailBody(f));
    QueryAfterPrefix(MailtoPrefix, Join(params, "&"));
    JoinThenSplit(params, '&');
  }

  lemma QueryAfterPrefix(prefix: string, query: string)
    ensures (prefix + query)[|prefix|..] == query
  {
  }

  /** A parameter name without `&`, then an encoded value, holds no `&`. */
  lemma ParamFree(name: string, value: string)
    requires '&' !in name
    ensures '&' !in name + Encode(value)
  {
    EncodeSafe(value);
    var e := Encode(value);
    forall k | 0 <= k < |name + e| ensures (name + e)[k] != '&' {
      if k >= |name| {
        assert (name + e)[k] == e[k - |name|];
      } else {
        assert (name + e)[k] == name[k];
      }
    }
  }

  /** The form component's state cells. */
  class ContactForm {
    var name: string
    var email: string
    var subject: string
    var message: string
    var isSubmitting: bool

    function Fields(): Form
      reads this`name, this`email, this`subject, this`message
    {
      Form(name, email, subject, message)
    }

    constructor ()
      ensures Fields() == EmptyForm && !isSubmitting
    {
      name, email, subject, message := "", "", "", "";
      isSubmitting := false;
    }

    method SetName(v: string)
      modifies this
      ensures Fields() == old(Fields()).(name := v) && isSubmitting == old(isSubmitting)
    {
      name := v;
    }

    method SetEmail(v: string)
      modifies this
      ensures Fields() == old(Fields()).(email := v) && isSubmitting == old(isSubmitting)
    {
      email := v;
    }

    method SetSubject(v: string)
      modifies this
      ensures Fields() == old(Fields()).(subject := v) && isSubmitting == old(isSubmitting)
    {
      subject := v;
    }

    method SetMessage(v: string)
      modifies this
      ensures Fields() == old(Fields()).(message := v) && isSubmitting == old(isSubmitting)
    {
      message := v;
    }

    /** `handleSubmit`. A rejected form leaves the flag alone; an accepted
        one raises it and the `finally` block lowers it again. */
    method HandleSubmit(navigationFails: bool) returns (outcome: Outcome)
      modifies this
      ensures Fields() == Submit(old(Fields()), navigationFails).0
      ensures outcome == Submit(old(Fields()), navigationFails).1
      ensures isSubmitting == (old(isSubmitting) && outcome.link == None)
    {
      var f := Fields();
      var rejection := Rejection(f);
      if rejection.Some? {
        return Outcome(rejection.value, None);
      }
      isSubmitting := true;
      var link := MailtoLink(f);
      if navigationFails {
        outcome := Outcome(Failed, Some(link));
      } else {
        name, email, subject, message := "", "", "", "";
        outcome := Outcome(Opened, Some(link));
      }
      isSubmitting := false;
    }
  }
}
