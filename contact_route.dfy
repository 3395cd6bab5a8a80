/** src/app/api/contact/route.ts: the public contact form. A valid message
    produces two mails, a notification to the site owner and an auto-reply to
    the sender; the mail transport is the parameter `deliver`, which says
    whether a given mail goes out, and the owner's address (an environment
    variable) is the parameter `owner`. Only the parts of each mail that carry
    the submitted text are kept, not the surrounding HTML. */
module ContactRoute {
  import opened JsValues
  import opened Http
  import Text

  /** The fields POST reads from `request.json()`. */
  datatype ContactBody = ContactBody(
    name: Option<string>,
    email: Option<string>,
    subject: Option<string>,
    message: Option<string>)

  const RequiredMessage := "All fields are required"
  const BadEmailMessage := "Invalid email format"
  const FailedMessage := "Failed to send email"
  const SentMessage := "Email sent successfully"
  const SubjectPrefix := "Portfolio Contact: "
  const AutoReplySubject := "Thank you for contacting me!"
  const SummaryLength := 100
  const Ellipsis := "..."

  /** One maximal run of `[^\s@]+`: non-empty, no whitespace, no `@`. */
  predicate EmailPart(x: string) {
    |x| > 0 && forall k :: 0 <= k < |x| ==> !Text.IsSpace(x[k]) && x[k] != '@'
  }

  /** What `/^[^\s@]+@[^\s@]+\.[^\s@]+$/` accepts: three parts, split by an
      `@` and then by some later dot. */
  ghost predicate EmailPattern(s: string) {
    exists i, j :: 0 < i && i + 1 < j && j + 1 < |s| && s[i] == '@' && s[j] == '.'
      && EmailPart(s[..i]) && EmailPart(s[i + 1..j]) && EmailPart(s[j + 1..])
  }

  /** The format check as it can be run: no whitespace, exactly one `@`, not
      first, and a dot after it that is neither right after the `@` nor last. */
  predicate IsEmail(s: string) {
    match Text.IndexOf(s, '@')
    case None => false
    case Some(i) =>
      && 0 < i
      && (forall k :: 0 <= k < |s| ==> !Text.IsSpace(s[k]))
      && '@' !in s[i + 1..]
      && exists j :: i + 1 < j < |s| - 1 && s[j] == '.'
  }

  /** The runnable check accepts exactly the strings the pattern describes. */
  lemma EmailCheckMatchesPattern(s: string)
    ensures IsEmail(s) <==> EmailPattern(s)
  {
    if IsEmail(s) {
      var i := Text.IndexOf(s, '@').value;
      var j :| i + 1 < j < |s| - 1 && s[j] == '.';
      assert s[i + 1..j] == s[i + 1..][..j - i - 1];
      assert s[j + 1..] == s[i + 1..][j - i..];
      assert EmailPart(s[..i]);
      assert EmailPart(s[i + 1..j]);
      assert EmailPart(s[j + 1..]);
    }
    if EmailPattern(s) {
      var i, j :| 0 < i && i + 1 < j && j + 1 < |s| && s[i] == '@' && s[j] == '.'
        && EmailPart(s[..i]) && EmailPart(s[i + 1..j]) && EmailPart(s[j + 1..]);
      PatternCharacters(s, i, j);
      assert Text.IndexOf(s, '@') == Some(i) by {
        var r := Text.IndexOf(s, '@');
        assert s[..i][..r.value] == s[..r.value] by {
          assert r.value <= i;
        }
      }
    }
  }

  /** The characters of a string the pattern accepts, by position. */
  lemma PatternCharacters(s: string, i: int, j: int)
    requires 0 < i && i + 1 < j && j + 1 < |s| && s[i] == '@' && s[j] == '.'
    requires EmailPart(s[..i]) && EmailPart(s[i + 1..j]) && EmailPart(s[j + 1..])
    ensures forall k :: 0 <= k < |s| ==> !Text.IsSpace(s[k])
    ensures '@' !in s[..i] && '@' !in s[i + 1..]
  {
    forall k | 0 <= k < |s|
      ensures !Text.IsSpace(s[k]) && (k != i ==> s[k] != '@')
    {
      if k < i {
        assert s[k] == s[..i][k];
      } else if i < k < j {
        assert s[k] == s[i + 1..j][k - i - 1];
      } else if j < k {
        assert s[k] == s[j + 1..][k - j - 1];
      }
    }
  }

  /** `message.replace(/\n/g, '<br>')`. */
  function ReplaceNewlines(m: string): (r: string)
    ensures '\n' !in r
    ensures '\n' !in m ==> r == m
  {
    if m == [] then []
    else
      var head := if m[0] == '\n' then "<br>" else [m[0]];
      var rest := ReplaceNewlines(m[1..]);
      assert forall k :: 0 <= k < |head + rest| ==> (head + rest)[k] == if k < |head| then head[k] else rest[k - |head|];
      head + rest
  }

  function CountNewlines(m: string): nat {
    if m == [] then 0 else (if m[0] == '\n' then 1 else 0) + CountNewlines(m[1..])
  }

  /** Each line break becomes four characters and nothing else changes length. */
  lemma {:induction false} ReplaceNewlinesLength(m: string)
    ensures |ReplaceNewlines(m)| == |m| + 3 * CountNewlines(m)
  {
    if m != [] {
      ReplaceNewlinesLength(m[1..]);
    }
  }

  /** The replacement works piece by piece. */
  lemma {:induction false} ReplaceNewlinesAppend(a: string, b: string)
    ensures ReplaceNewlines(a + b) == ReplaceNewlines(a) + ReplaceNewlines(b)
  {
    if a != [] {
      assert (a + b)[1..] == a[1..] + b;
      ReplaceNewlinesAppend(a[1..], b);
    } else {
      assert a + b == b;
    }
  }

  /** Every line break becomes `<br>` where it stood, and the text around it
      is replaced on its own. */
  lemma ReplaceNewlinesBreak(a: string, b: string)
    ensures ReplaceNewlines("\n") == "<br>"
    ensures ReplaceNewlines(a + "\n" + b) == ReplaceNewlines(a) + "<br>" + ReplaceNewlines(b)
  {
    assert "\n"[1..] == [];
    ReplaceNewlinesAppend(a + "\n", b);
    ReplaceNewlinesAppend(a, "\n");
  }

  /** `message.substring(0, 100)` followed by `...` when the message is longer. */
  function Summary(m: string): (r: string)
    ensures |m| <= SummaryLength ==> r == m
    ensures |m| > SummaryLength ==> |r| == SummaryLength + |Ellipsis|
    ensures |m| > SummaryLength ==> Text.StartsWith(m, r[..SummaryLength]) && r[SummaryLength..] == Ellipsis
    ensures |r| <= SummaryLength + |Ellipsis|
  {
    if |m| > SummaryLength then m[..SummaryLength] + Ellipsis else m
  }

  /** The two mails, reduced to their addressee, subject and the submitted
      text they carry. */
  datatype Mail =
    | Notification(to: string, subject: string, name: string, email: string, topic: string, html: string)
    | AutoReply(to: string, subject: string, name: string, topic: string, summary: string)

  function NotificationFor(b: ContactBody, owner: string): Mail
    requires b.name.Some? && b.email.Some? && b.subject.Some? && b.message.Some?
  {
    Notification(owner, SubjectPrefix + b.subject.value, b.name.value, b.email.value, b.subject.value,
                 ReplaceNewlines(b.message.value))
  }

  function AutoReplyFor(b: ContactBody): Mail
    requires b.name.Some? && b.email.Some? && b.subject.Some? && b.message.Some?
  {
    AutoReply(b.email.value, AutoReplySubject, b.name.value, b.subject.value, Summary(b.message.value))
  }

  /** The reply and the mails that went out, in order. */
  datatype Outcome = Outcome(reply: Reply<string>, sent: seq<Mail>)

  predicate HasAllFields(b: ContactBody) {
    Truthy(b.name) && Truthy(b.email) && Truthy(b.subject) && Truthy(b.message)
  }

  /** POST: body, required fields, then the email format, then the two sends
      in order; any failure after validation answers 500. */
  function Post(body: Option<ContactBody>, owner: string, deliver: Mail -> bool): (r: Outcome)
    ensures body.None? ==> r == Outcome(Error(500, FailedMessage), [])
    ensures body.Some? && !HasAllFields(body.value) ==> r == Outcome(Error(400, RequiredMessage), [])
    ensures body.Some? && HasAllFields(body.value) && !IsEmail(body.value.email.value) ==>
      r == Outcome(Error(400, BadEmailMessage), [])
    ensures body.Some? && HasAllFields(body.value) && IsEmail(body.value.email.value) ==>
      var n, a := NotificationFor(body.value, owner), AutoReplyFor(body.value);
      && (!deliver(n) ==> r == Outcome(Error(500, FailedMessage), []))
      && (deliver(n) && !deliver(a) ==> r == Outcome(Error(500, FailedMessage), [n]))
      && (deliver(n) && deliver(a) ==> r == Outcome(Ok(200, SentMessage), [n, a]))
    ensures r.reply.Ok? <==> |r.sent| == 2
  {
    if body.None? then Outcome(Error(500, FailedMessage), [])
    else
      var b := body.value;
      if !Truthy(b.name) || !Truthy(b.email) || !Truthy(b.subject) || !Truthy(b.message) then
        Outcome(Error(400, RequiredMessage), [])
      else if !IsEmail(b.email.value) then
        Outcome(Error(400, BadEmailMessage), [])
      else
        var n := NotificationFor(b, owner);
        if !deliver(n) then Outcome(Error(500, FailedMessage), [])
        else
          var a := AutoReplyFor(b);
          if !deliver(a) then Outcome(Error(500, FailedMessage), [n])
          else Outcome(Ok(200, SentMessage), [n, a])
  }

  /** The transport as the handler obtains it: it calls
      `nodemailer.createTransporter`, which nodemailer does not provide (its
      factory is `createTransport`), so the call throws before the first mail
      is built. That is a transport through which no mail goes out. */
  function ThrowingTransport(m: Mail): bool {
    false
  }

  /** As written, no request is ever answered 200 and no mail is sent: a
      request that passes validation reaches the transport call and answers
      500 `Failed to send email`. */
  lemma CreateTransporterFails(body: Option<ContactBody>, owner: string)
    ensures var r := Post(body, owner, ThrowingTransport);
      && r.sent == [] && r.reply.Error?
      && (body.Some? && HasAllFields(body.value) && IsEmail(body.value.email.value) ==>
            r.reply == Error(500, FailedMessage))
  {
  }

  /** With a transport that delivers, a valid request sends the notification
      to the owner and then the auto-reply to the sender, and answers 200. */
  lemma WorkingTransportSendsBoth(body: Option<ContactBody>, owner: string)
    requires body.Some? && HasAllFields(body.value) && IsEmail(body.value.email.value)
    ensures Post(body, owner, m => true) ==
      Outcome(Ok(200, SentMessage), [NotificationFor(body.value, owner), AutoReplyFor(body.value)])
    ensures Post(body, owner, m => true).sent[1].to == body.value.email.value
  {
  }

  /** Whatever the transport does, mail only goes to the owner and to an
      address that has the shape of an email, and the owner's copy carries
      the whole message with its line breaks as `<br>`. */
  lemma MailGoesOnlyToCheckedAddresses(body: Option<ContactBody>, owner: string, deliver: Mail -> bool)
    ensures var r := Post(body, owner, deliver);
      forall k :: 0 <= k < |r.sent| ==>
        (r.sent[k].Notification? ==>
           && r.sent[k].to == owner
           && r.sent[k].html == ReplaceNewlines(body.value.message.value)
           && r.sent[k].subject == SubjectPrefix + body.value.subject.value)
        && (r.sent[k].AutoReply? ==> r.sent[k].to == body.value.email.value && EmailPattern(r.sent[k].to))
  {
    if body.Some? && HasAllFields(body.value) {
      EmailCheckMatchesPattern(body.value.email.value);
    }
  }
}
