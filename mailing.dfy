/*
 * The e-mails of the alert and reminder schedulers (EmailService.java): the
 * subject line, the parts of the body that vary, and the search for the
 * superadmin's address the mails go to.
 */
module Mailing {
  import opened Base
  import opened JavaStrings
  import opened Roles

  /** Which scheduler a mail belongs to: an alert (`Alerte`) or a reminder (`Rappel`). */
  datatype MailKind = AlertMail | ReminderMail

  const RELANCE_PREFIX := "RELANCE - "
  const ALERT_TITLE := "Alerte de vérification de machine - "
  const REMINDER_TITLE := "Rappel de vérification de machine - "
  const NO_DESCRIPTION := "Aucune description"

  function Title(kind: MailKind): string
  {
    match kind
    case AlertMail => ALERT_TITLE
    case ReminderMail => REMINDER_TITLE
  }

  /** The subject: the kind's title and the machine name, after "RELANCE - " for an escalation. */
  function Subject(kind: MailKind, machineNom: string, isRelance: bool): string
  {
    (if isRelance then RELANCE_PREFIX else "") + Title(kind) + machineNom
  }

  /** Neither title starts like the escalation prefix. */
  lemma TitlesAreNotEscalations(kind: MailKind)
    ensures !StartsWith(Title(kind), RELANCE_PREFIX)
  {
    var t := Title(kind);
    assert t[1] != RELANCE_PREFIX[1];
    assert |RELANCE_PREFIX| <= |t| ==> t[..|RELANCE_PREFIX|][1] == t[1];
  }

  /** A prefix of the first part is a prefix of the whole. */
  lemma StartsWithConcat(a: string, b: string, p: string)
    requires |p| <= |a|
    ensures StartsWith(a + b, p) <==> StartsWith(a, p)
  {
    assert (a + b)[..|p|] == a[..|p|];
  }

  /** A string put in front is a prefix, and dropping it gives the rest back. */
  lemma PrefixOfConcat(p: string, rest: string)
    ensures StartsWith(p + rest, p) && (p + rest)[|p|..] == rest
  {
    assert (p + rest)[..|p|] == p;
  }

  /** A subject carries the "RELANCE - " prefix exactly when the mail is an escalation. */
  lemma EscalationPrefixRule(kind: MailKind, machineNom: string, isRelance: bool)
    ensures StartsWith(Subject(kind, machineNom, isRelance), RELANCE_PREFIX) <==> isRelance
    ensures isRelance ==> Subject(kind, machineNom, isRelance)[|RELANCE_PREFIX|..] == Subject(kind, machineNom, false)
  {
    var p := RELANCE_PREFIX;
    var t := Title(kind);
    var base := t + machineNom;
    assert Subject(kind, machineNom, false) == base;
    if isRelance {
      assert Subject(kind, machineNom, isRelance) == p + base;
      PrefixOfConcat(p, base);
    } else {
      TitlesAreNotEscalations(kind);
      StartsWithConcat(t, machineNom, p);
    }
  }

  /** The description line of the body: the description, or "Aucune description" when it is null. */
  function DescriptionText(description: Option<string>): (r: string)
    ensures description.Some? ==> r == description.value
    ensures description.None? ==> r == NO_DESCRIPTION
  {
    if description.Some? then description.value else NO_DESCRIPTION
  }

  /**
   * A mail handed to the transport: recipient, subject and the body's
   * variable parts (the machine, the scheduled instant, the description).
   */
  datatype Mail = Mail(to: string, subject: string, machineNom: string, dateVerification: int, description: string)

  /** `sendAlerteEmail` / `sendRappelEmail` up to the transport. */
  function ComposeMail(kind: MailKind, to: string, machineNom: string, description: Option<string>,
                       dateVerification: int, isRelance: bool): Mail
  {
    Mail(to, Subject(kind, machineNom, isRelance), machineNom, dateVerification, DescriptionText(description))
  }

  // ---------------------------------------------------------------------------
  // getSuperAdminEmail (EmailService.java:158-170)
  // ---------------------------------------------------------------------------

  /** What the search reads of a user: role and email, each possibly null. */
  datatype UserContact = UserContact(role: Option<string>, email: Option<string>)

  /** A user whose role is "superadmin" ignoring case and whose email is not empty. */
  predicate IsSuperAdminContact(u: UserContact)
  {
    IsSuperAdmin(u.role) && u.email.Some? && u.email.value != ""
  }

  /** The first qualifying user's email in list order; None stands for the exception thrown otherwise. */
  function FirstSuperAdminEmail(users: seq<UserContact>): Option<string>
  {
    if users == [] then None
    else if IsSuperAdminContact(users[0]) then Some(users[0].email.value)
    else FirstSuperAdminEmail(users[1..])
  }

  /** The search loop with its early return. */
  method GetSuperAdminEmail(users: seq<UserContact>) returns (r: Option<string>)
    ensures r == FirstSuperAdminEmail(users)
  {
    var i := 0;
    while i < |users|
      invariant 0 <= i <= |users|
      invariant FirstSuperAdminEmail(users[i..]) == FirstSuperAdminEmail(users)
    {
      if IsSuperAdminContact(users[i]) {
        return Some(users[i].email.value);
      }
      assert users[i..][1..] == users[i + 1..];
      i := i + 1;
    }
    return None;
  }

  /**
   * The address found belongs to a qualifying user with no qualifying user
   * before it; the search fails iff nobody qualifies.
   */
  lemma {:induction false} FirstSuperAdminEmailIsFirst(users: seq<UserContact>)
    ensures FirstSuperAdminEmail(users).None? <==> forall i :: 0 <= i < |users| ==> !IsSuperAdminContact(users[i])
    ensures FirstSuperAdminEmail(users).Some? ==>
              exists i :: 0 <= i < |users| && IsSuperAdminContact(users[i])
                          && users[i].email == FirstSuperAdminEmail(users)
                          && forall j :: 0 <= j < i ==> !IsSuperAdminContact(users[j])
  {
    if users != [] {
      FirstSuperAdminEmailIsFirst(users[1..]);
      if !IsSuperAdminContact(users[0]) {
        assert forall i :: 1 <= i < |users| ==> users[i] == users[1..][i - 1];
        if FirstSuperAdminEmail(users).Some? {
          var k :| 0 <= k < |users[1..]| && IsSuperAdminContact(users[1..][k])
                   && users[1..][k].email == FirstSuperAdminEmail(users[1..])
                   && forall j :: 0 <= j < k ==> !IsSuperAdminContact(users[1..][j]);
          assert IsSuperAdminContact(users[k + 1]);
          assert forall j :: 0 <= j < k + 1 ==> !IsSuperAdminContact(users[j]) by {
            forall j | 0 <= j < k + 1
              ensures !IsSuperAdminContact(users[j])
            {
              if j > 0 {
                assert users[j] == users[1..][j - 1];
              }
            }
          }
        }
      }
    }
  }
}
