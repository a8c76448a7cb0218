/**
 * The modal in which a visitor asks a colleague for a conversation: the
 * e-mail body, the `mailto:` link that opens the visitor's mail program,
 * the optional tracking request, and what closing the modal resets.
 */
module RequestModal {
  import opened Wrappers
  import opened Text
  import opened Records
  import opened UriComponent

  const Opening := "Ik wil graag een "
  const Closing := " met je inplannen. Kun je aangeven welke moment voor jou past, zodat we de afspraak kunnen vastleggen? Dank je wel alvast."
  const DefaultText := Opening + "ontwikkelgesprek" + Closing
  const SpelvormText := Opening + "individueel ontwikkelgesprek - spelvorm" + Closing
  const Subject := "Aanvraag voor ontwikkelgesprek"

  lemma TextsDiffer()
    ensures DefaultText != SpelvormText
  {
    assert DefaultText[|Opening|] == 'o';
    assert SpelvormText[|Opening|] == 'i';
  }

  /** `defaultMessage`: the spelvorm text for a mail-only modal, else the standard text. */
  function DefaultMessage(mailtoOnly: bool): (m: string)
    ensures mailtoOnly <==> m == SpelvormText
    ensures !mailtoOnly <==> m == DefaultText
  {
    TextsDiffer();
    if mailtoOnly then SpelvormText else DefaultText
  }

  /** The sign-off: with the visitor's name on its own line when one was given. */
  function SignOff(requesterName: string): (t: string)
    ensures requesterName != "" ==> t == "Met vriendelijke groet,\n" + requesterName
    ensures requesterName == "" ==> t == "Met vriendelijke groet"
  {
    if requesterName != "" then "Met vriendelijke groet,\n" + requesterName else "Met vriendelijke groet"
  }

  /** The greeting line and the blank line after it. */
  function Greeting(colleagueName: string): string {
    "Beste " + colleagueName + ",\n\n"
  }

  /** The e-mail body: greeting, the trimmed message, a blank line, the sign-off. */
  function EmailBody(colleagueName: string, message: string, requesterName: string): string {
    Greeting(colleagueName) + Trim(message) + "\n\n" + SignOff(requesterName)
  }

  lemma Regroup(a: string, b: string, c: string)
    ensures a + b + c == a + (b + c)
  {
  }

  lemma ThreeSlices(a: string, b: string, c: string)
    ensures var s := a + b + c;
      s[..|a|] == a && s[|a|..|a| + |b|] == b && s[|a| + |b|..] == c
  {
  }

  /**
   * The body opens with the greeting, carries the trimmed message right
   * after it, and ends with the visitor's name when one was given.
   */
  lemma EmailBodyShape(colleagueName: string, message: string, requesterName: string)
    ensures var body := EmailBody(colleagueName, message, requesterName);
      var head := Greeting(colleagueName);
      StartsWith(body, head) &&
      body[|head|..|head| + |Trim(message)|] == Trim(message) &&
      (requesterName != "" ==> body[|body| - |requesterName|..] == requesterName)
  {
    var head, msg, rest := Greeting(colleagueName), Trim(message), "\n\n" + SignOff(requesterName);
    var body := EmailBody(colleagueName, message, requesterName);
    Regroup(head + msg, "\n\n", SignOff(requesterName));
    assert body == head + msg + rest;
    ThreeSlices(head, msg, rest);
    if requesterName != "" {
      var front := head + msg + "\n\n" + "Met vriendelijke groet,\n";
      Regroup(head + msg + "\n\n", "Met vriendelijke groet,\n", requesterName);
      assert body == front + requesterName;
      assert (front + requesterName)[|front|..] == requesterName;
    }
  }

  /** `mailto:${email}?subject=${encoded subject}&body=${encoded body}`. */
  function MailtoLink(email: string, subject: string, body: string): string {
    "mailto:" + email + "?subject=" + Encode(subject) + "&body=" + Encode(body)
  }

  lemma NotInConcat(c: char, a: string, b: string)
    requires c !in a && c !in b
    ensures c !in a + b
  {
  }

  /** The query part: the two fields joined by '&', neither holding '&' or '?'. */
  lemma QueryFields(es: string, eb: string)
    requires '&' !in es && '&' !in eb && '?' !in es && '?' !in eb
    ensures var query := "subject=" + es + "&body=" + eb;
      '?' !in query && Split(query, '&') == ["subject=" + es, "body=" + eb]
  {
    var first := "subject=" + es;
    var second := "body=" + eb;
    assert '&' !in "subject=" && '&' !in "body=" && '?' !in "subject=" && '?' !in "body=";
    NotInConcat('&', "subject=", es);
    NotInConcat('&', "body=", eb);
    NotInConcat('?', "subject=", es);
    NotInConcat('?', "body=", eb);
    assert "&body=" == ['&'] + "body=";
    Regroup(first, ['&'], "body=");
    assert "subject=" + es + "&body=" + eb == first + ['&'] + "body=" + eb;
    Regroup(first + ['&'], "body=", eb);
    assert "subject=" + es + "&body=" + eb == first + ['&'] + second;
    NotInConcat('?', first, ['&']);
    NotInConcat('?', first + ['&'], second);
    SplitAtSeparator(first, second, '&');
    SplitNoSeparator(second, '&');
  }

  /**
   * The link has the form of section 2 of RFC 6068 when the address has no
   * '?': the part after the first '?' splits at '&' into exactly the
   * subject and body fields, each a well-formed header value.
   */
  lemma MailtoLinkFields(email: string, subject: string, body: string)
    requires '?' !in email
    ensures var link := MailtoLink(email, subject, body);
      var query := "subject=" + Encode(subject) + "&body=" + Encode(body);
      Split(link, '?') == ["mailto:" + email, query] &&
      Split(query, '&') == ["subject=" + Encode(subject), "body=" + Encode(body)]
    ensures IsHfvalue(Encode(subject)) && IsHfvalue(Encode(body))
  {
    EncodedHasNoDelimiters(subject);
    EncodedHasNoDelimiters(body);
    EncodeIsHfvalue(subject);
    EncodeIsHfvalue(body);
    LinkSplits(email, Encode(subject), Encode(body));
  }

  /** The splits of a link over any field values free of '?' and '&'. */
  lemma LinkSplits(email: string, es: string, eb: string)
    requires '?' !in email && '&' !in es && '&' !in eb && '?' !in es && '?' !in eb
    ensures var head := "mailto:" + email;
      var query := "subject=" + es + "&body=" + eb;
      Split(head + "?subject=" + es + "&body=" + eb, '?') == [head, query] &&
      Split(query, '&') == ["subject=" + es, "body=" + eb]
  {
    var head := "mailto:" + email;
    var query := "subject=" + es + "&body=" + eb;
    assert '?' !in "mailto:";
    NotInConcat('?', "mailto:", email);
    QueryFields(es, eb);
    LinkRegroup(head, es, eb);
    SplitAtSeparator(head, query, '?');
    SplitNoSeparator(query, '?');
  }

  lemma LinkRegroup(head: string, es: string, eb: string)
    ensures head + "?subject=" + es + "&body=" + eb == head + ['?'] + ("subject=" + es + "&body=" + eb)
  {
    assert "?subject=" == ['?'] + "subject=";
    var q := "subject=" + es + "&body=" + eb;
    calc {
      head + "?subject=" + es + "&body=" + eb;
      == { Regroup(head, "?subject=", es); }
      head + ("?subject=" + es) + "&body=" + eb;
      == { Regroup(head, "?subject=" + es, "&body="); }
      head + ("?subject=" + es + "&body=") + eb;
      == { Regroup(head, "?subject=" + es + "&body=", eb); }
      head + ("?subject=" + es + "&body=" + eb);
      == { assert "?subject=" + es + "&body=" + eb == ['?'] + q; }
      head + (['?'] + q);
    }
  }

  /** What the tracking POST sends. */
  datatype TrackingRequest = TrackingRequest(colleague_id: string, requester_name: Option<string>, message: string)

  /**
   * The body built line by line as `handleSubmit` does, then turned into
   * the link by `generateMailtoLink`.
   */
  method ComposeLink(colleague: Colleague, subject: string, message: string, requesterName: string) returns (link: string)
    ensures link == MailtoLink(colleague.email, subject, EmailBody(colleague.name, message, requesterName))
  {
    var emailBody := Greeting(colleague.name) + Trim(message) + "\n\n";
    if requesterName != "" {
      Regroup(emailBody, "Met vriendelijke groet,\n", requesterName);
      emailBody := emailBody + "Met vriendelijke groet,\n" + requesterName;
    } else {
      emailBody := emailBody + "Met vriendelijke groet";
    }
    assert emailBody == EmailBody(colleague.name, message, requesterName);
    link := MailtoLink(colleague.email, subject, emailBody);
  }

  class RequestModalState {
    const colleague: Colleague
    const mailtoOnly: bool
    /** The fixed subject line of every request. */
    const subject: string
    var requesterName: string
    var message: string
    var isSubmitting: bool
    var error: Option<string>
    var success: bool
    var closed: bool

    constructor (colleague: Colleague, mailtoOnly: bool)
      ensures this.colleague == colleague && this.mailtoOnly == mailtoOnly && subject == Subject
      ensures requesterName == "" && message == DefaultMessage(mailtoOnly)
      ensures !isSubmitting && error.None? && !success && !closed
    {
      this.colleague := colleague;
      this.mailtoOnly := mailtoOnly;
      subject := Subject;
      requesterName := "";
      message := DefaultMessage(mailtoOnly);
      isSubmitting := false;
      error := None;
      success := false;
      closed := false;
    }

    /**
     * `handleSubmit`: builds the body step by step, opens the link, sends the
     * tracking request unless mail-only, and shows the success state. The
     * tracking request's outcome never reaches `error`.
     */
    method HandleSubmit() returns (link: string, tracking: Option<TrackingRequest>)
      modifies this
      ensures link == MailtoLink(colleague.email, subject, EmailBody(colleague.name, message, requesterName))
      ensures tracking.Some? <==> !mailtoOnly
      ensures tracking.Some? ==> (tracking.value ==
        TrackingRequest(colleague.id, if requesterName != "" then Some(requesterName) else None, Trim(message)))
      ensures isSubmitting && success && error.None?
      ensures requesterName == old(requesterName) && message == old(message) && closed == old(closed)
    {
      error := None;
      isSubmitting := true;
      link := ComposeLink(colleague, subject, message, requesterName);
      tracking := None;
      if !mailtoOnly {
        tracking := Some(TrackingRequest(colleague.id, if requesterName != "" then Some(requesterName) else None, Trim(message)));
      }
      success := true;
    }

    /** The delayed step after a successful request: close and reset the form. */
    method AfterSuccess()
      modifies this
      ensures closed && !success && requesterName == "" && message == DefaultMessage(mailtoOnly)
      ensures isSubmitting == old(isSubmitting) && error == old(error)
    {
      closed := true;
      success := false;
      requesterName := "";
      message := DefaultMessage(mailtoOnly);
    }

    /** `handleClose`: ignored while submitting; otherwise closes and resets everything the visitor changed. */
    method HandleClose()
      modifies this
      ensures old(isSubmitting) ==>
        closed == old(closed) && requesterName == old(requesterName) && message == old(message) &&
        error == old(error) && success == old(success) && isSubmitting
      ensures !old(isSubmitting) ==>
        closed && error.None? && !success && requesterName == "" && message == DefaultMessage(mailtoOnly) && !isSubmitting
    {
      if !isSubmitting {
        closed := true;
        error := None;
        success := false;
        requesterName := "";
        message := DefaultMessage(mailtoOnly);
      }
    }
  }
}
