/**
 * The contact form's submit handler: the e-mail pattern `^[^\s@]+@[^\s@]+\.[^\s@]+$`
 * and the order of its two checks (every field filled, then a well-formed address).
 */
module ContactForm {

  /** The characters JavaScript's `\s` class matches: the ASCII white space,
      no-break space, the Unicode space separators, the line and paragraph
      separators and the byte-order mark. */
  predicate IsRegexWhitespace(c: char) {
    c == ' ' || c == '\t' || c == '\n' || c == '\U{000B}' || c == '\U{000C}' || c == '\r'
    || c == '\U{00A0}' || c == '\U{1680}' || ('\U{2000}' <= c <= '\U{200A}')
    || c == '\U{2028}' || c == '\U{2029}' || c == '\U{202F}' || c == '\U{205F}'
    || c == '\U{3000}' || c == '\U{FEFF}'
  }

  /** The class `[^\s@]`. */
  predicate IsAddressChar(c: char) {
    !IsRegexWhitespace(c) && c != '@'
  }

  /** `[^\s@]+`: a non-empty run of address characters. */
  predicate AddressRun(s: string) {
    |s| > 0 && forall i :: 0 <= i < |s| ==> IsAddressChar(s[i])
  }

  /** What the anchored pattern accepts: a run, '@', a run, '.', a run. */
  ghost predicate MatchesEmailPattern(s: string) {
    exists local, host, top :: AddressRun(local) && AddressRun(host) && AddressRun(top)
      && s == local + "@" + host + "." + top
  }

  /** `isValidEmail`, read character by character: no white space, exactly one '@'
      and it is not the first character, and after it a '.' that is neither the
      first nor the last character of the domain. */
  predicate IsValidEmail(s: string)
    ensures IsValidEmail(s) ==> 5 <= |s| && '@' in s && ' ' !in s
  {
    && (forall i :: 0 <= i < |s| ==> !IsRegexWhitespace(s[i]))
    && exists at :: (0 < at < |s| && s[at] == '@'
         && (forall i :: 0 <= i < |s| && i != at ==> s[i] != '@')
         && exists dot :: at + 1 < dot < |s| - 1 && s[dot] == '.')
  }

  /** The pieces around a chosen '@' and '.' form a pattern match. */
  lemma SplitIsMatch(s: string, at: nat, dot: nat)
    requires 0 < at && at + 1 < dot < |s| - 1 && s[at] == '@' && s[dot] == '.'
    requires forall i :: 0 <= i < |s| ==> !IsRegexWhitespace(s[i])
    requires forall i :: 0 <= i < |s| && i != at ==> s[i] != '@'
    ensures MatchesEmailPattern(s)
  {
    var local, host, top := s[..at], s[at + 1..dot], s[dot + 1..];
    assert forall i :: 0 <= i < |local| ==> local[i] == s[i];
    assert forall i :: 0 <= i < |host| ==> host[i] == s[at + 1 + i];
    assert forall i :: 0 <= i < |top| ==> top[i] == s[dot + 1 + i];
    assert AddressRun(local) && AddressRun(host) && AddressRun(top);
    assert s == local + "@" + host + "." + top;
  }

  /** A pattern match, read back as positions of its '@' and '.'. */
  lemma MatchIsValid(local: string, host: string, top: string)
    requires AddressRun(local) && AddressRun(host) && AddressRun(top)
    ensures IsValidEmail(local + "@" + host + "." + top)
  {
    var s := local + "@" + host + "." + top;
    var at, dot := |local|, |local| + 1 + |host|;
    forall i | 0 <= i < |s|
      ensures !IsRegexWhitespace(s[i]) && (i != at ==> s[i] != '@')
    {
      if i < at {
        assert s[i] == local[i];
      } else if at < i < dot {
        assert s[i] == host[i - at - 1];
      } else if dot < i {
        assert s[i] == top[i - dot - 1];
      }
    }
    assert s[at] == '@' && s[dot] == '.';
  }

  /** The character reading of `isValidEmail` is exactly the regular expression. */
  lemma ValidEmailMatchesPattern(s: string)
    ensures IsValidEmail(s) <==> MatchesEmailPattern(s)
  {
    if IsValidEmail(s) {
      var at :| 0 < at < |s| && s[at] == '@'
        && (forall i :: 0 <= i < |s| && i != at ==> s[i] != '@')
        && exists dot :: at + 1 < dot < |s| - 1 && s[dot] == '.';
      var dot :| at + 1 < dot < |s| - 1 && s[dot] == '.';
      SplitIsMatch(s, at, dot);
    }
    if MatchesEmailPattern(s) {
      var local, host, top :| AddressRun(local) && AddressRun(host) && AddressRun(top)
        && s == local + "@" + host + "." + top;
      MatchIsValid(local, host, top);
    }
  }

  /** The outcome of one submit: the two error notifications, or the simulated send. */
  datatype FormCheck = FillInAllFields | InvalidEmailAddress | Sending

  /** The validation branch of the submit handler. A field counts as empty only when
      its value is the empty string; the address is looked at only after every field
      is filled. */
  function CheckContactForm(name: string, email: string, subject: string, message: string)
    : (r: FormCheck)
    ensures r == FillInAllFields <==> name == "" || email == "" || subject == "" || message == ""
    ensures r == InvalidEmailAddress <==>
      name != "" && email != "" && subject != "" && message != "" && !IsValidEmail(email)
    ensures r == Sending <==>
      name != "" && subject != "" && message != "" && IsValidEmail(email)
  {
    if name == "" || email == "" || subject == "" || message == "" then FillInAllFields
    else if !IsValidEmail(email) then InvalidEmailAddress
    else Sending
  }

  /** The notification text and kind shown for each outcome; the send reports
      success once its delay has passed. */
  function Notification(r: FormCheck): (note: (string, string))
    ensures note.1 == "error" <==> r != Sending
  {
    match r
    case FillInAllFields => ("Please fill in all fields", "error")
    case InvalidEmailAddress => ("Please enter a valid email address", "error")
    case Sending => ("Message sent successfully! I'll get back to you soon.", "success")
  }

  /** Fields are not trimmed: a form whose fields hold only spaces passes the first
      check and is refused by the address check. */
  lemma BlankFieldsReachAddressCheck(name: string, subject: string, message: string)
    requires name != "" && subject != "" && message != ""
    ensures CheckContactForm(name, " ", subject, message) == InvalidEmailAddress
  {
  }
}
