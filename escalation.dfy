/*
 * Scheduled machine checks: alerts (AlertController.java, AlertSchedulerService.java)
 * and reminders (RappelController.java, RappelSchedulerService.java). Both
 * carry the same fields and follow the same rules: a superadmin creates,
 * edits, deletes and verifies them; the schedulers mail the superadmin and
 * mark a record only after its mail went out and the record was saved.
 */
module Escalation {
  import opened Base
  import opened JavaStrings
  import opened Roles
  import opened Mailing
  import Tickets

  // ---------------------------------------------------------------------------
  // The record
  // ---------------------------------------------------------------------------

  /** What is checked and when. */
  datatype CheckTarget = CheckTarget(entrepriseId: Option<string>, machineId: Option<string>, machineNom: Option<string>,
                                     description: Option<string>, dateVerification: Option<int>)

  /** The escalation (`relance`) settings and the number of escalations already mailed. */
  datatype RelanceConfig = RelanceConfig(activerRelance: Option<bool>, nombreRelances: Option<int>,
                                         nombreRelancesEnvoyees: Option<int>)

  /** What the scheduler records: the first mail and the last escalation. */
  datatype Delivery = Delivery(envoye: Option<bool>, dateEnvoi: Option<int>, dateDerniereRelance: Option<int>)

  /** Whether and when the machine was actually checked. */
  datatype Verification = Verification(verifie: Option<bool>, dateVerificationReelle: Option<int>)

  /** An `Alerte` or a `Rappel`. */
  datatype Check = Check(target: CheckTarget, relance: RelanceConfig, delivery: Delivery, verification: Verification,
                         creePar: Option<string>, creeParNom: Option<string>)

  datatype CheckRefusal = NotSuperAdmin | NoEnterprise | NoMachine | MachineNotFound | InvalidDate | CheckNotFound | LookupError

  // ---------------------------------------------------------------------------
  // Escalation settings from the form
  // ---------------------------------------------------------------------------

  /** The checkbox: escalations are on iff the parameter is "on" or "true". */
  predicate ActiverRelance(s: Option<string>)
  {
    s == Some("on") || s == Some("true")
  }

  /** The count field read as `Integer.parseInt`, null and "" counting as 0. */
  datatype CountParse = Counted(n: int) | Unparsable

  function ParseCount(s: Option<string>): (r: CountParse)
    ensures r.Counted? ==> IsInt32(r.n)
  {
    if s.None? || s.value == "" then Counted(0)
    else match ParseInt(s.value)
      case Some(n) => Counted(n)
      case None => Unparsable
  }

  /** `nombreRelances`: 0 when escalations are off or the count does not parse. */
  function NombreRelances(activer: bool, s: Option<string>): int
  {
    if !activer then 0
    else match ParseCount(s)
      case Counted(n) => n
      case Unparsable => 0
  }

  /** Off or unparsable gives 0; a printed `int` reads back as itself. */
  lemma NombreRelancesRules(activer: bool, s: Option<string>, n: int)
    ensures !activer ==> NombreRelances(activer, s) == 0
    ensures ParseCount(s).Unparsable? ==> NombreRelances(activer, s) == 0
    ensures activer && IsInt32(n) ==> NombreRelances(activer, Some(IntToString(n))) == n
  {
    if IsInt32(n) {
      ParseIntegerRoundTrip(n, INT32_MIN, INT32_MAX);
      assert IntToString(n) != "" by {
        if n < 0 {
          assert IntToString(n)[0] == '-';
        } else {
          assert |NatToString(n)| > 0;
        }
      }
    }
  }

  // ---------------------------------------------------------------------------
  // Controller operations
  // ---------------------------------------------------------------------------

  datatype CheckWrite = Written(check: Check) | Refused(reason: CheckRefusal)

  /**
   * `createAlerte` / `createRappel`. `date` is the instant the form's date
   * parses to (None when it does not parse); `machine` answers the machine
   * lookup with the machine's name; `creator` answers the creator lookup.
   */
  function CreateCheck(role: Option<string>, entrepriseId: Option<string>, lastSelected: Option<string>,
                       machineId: string, description: Option<string>, date: Option<int>,
                       activerStr: Option<string>, countStr: Option<string>, machine: Lookup<Option<string>>,
                       userId: Option<string>, creator: Lookup<Tickets.UserNames>): (r: CheckWrite)
    ensures !IsSuperAdmin(role) ==> r == Refused(NotSuperAdmin)
    ensures r.Written? ==> && HasTextOpt(r.check.target.entrepriseId) && HasText(machineId)
                           && machine.Found? && date.Some?
                           && r.check.target.dateVerification == date
                           && r.check.relance.nombreRelancesEnvoyees == Some(0)
                           && r.check.verification.verifie == Some(false)
                           && r.check.relance.activerRelance == Some(ActiverRelance(activerStr))
                           && r.check.relance.nombreRelances == Some(NombreRelances(ActiverRelance(activerStr), countStr))
                           && r.check.delivery == Delivery(None, None, None)
    ensures r.Refused? && r.reason == InvalidDate ==> date.None?
  {
    if !IsSuperAdmin(role) then Refused(NotSuperAdmin)
    else
      var e := Tickets.CreationEnterprise(entrepriseId, lastSelected);
      if !HasTextOpt(e) then Refused(NoEnterprise)
      else if !HasText(machineId) then Refused(NoMachine)
      else match machine
        case NotFound => Refused(MachineNotFound)
        case LookupFailed => Refused(LookupError)
        case Found(nom) =>
          if date.None? then Refused(InvalidDate)
          else
            var activer := ActiverRelance(activerStr);
            Written(Check(CheckTarget(e, Some(machineId), nom, Some(description.GetOr("")), date),
                          RelanceConfig(Some(activer), Some(NombreRelances(activer, countStr)), Some(0)),
                          Delivery(None, None, None),
                          Verification(Some(false), None),
                          userId, Tickets.LookedUpName(userId, creator, None)))
  }

  /**
   * The escalation settings after an edit. A parse failure skips the
   * initialisation of the sent count, which only a parsed (or empty) count reaches.
   */
  function EditedRelance(r: RelanceConfig, activerStr: Option<string>, countStr: Option<string>): RelanceConfig
  {
    var activer := ActiverRelance(activerStr);
    if !activer then RelanceConfig(Some(false), Some(0), r.nombreRelancesEnvoyees)
    else match ParseCount(countStr)
      case Unparsable => RelanceConfig(Some(true), Some(0), r.nombreRelancesEnvoyees)
      case Counted(n) =>
        RelanceConfig(Some(true), Some(n), if r.nombreRelancesEnvoyees.None? then Some(0) else r.nombreRelancesEnvoyees)
  }

  /** `updateAlerte` / `updateRappel` on the record `found` the lookup returned. */
  function UpdateCheck(role: Option<string>, found: Lookup<Check>, description: Option<string>, date: Option<int>,
                       activerStr: Option<string>, countStr: Option<string>): (r: CheckWrite)
    ensures !IsSuperAdmin(role) ==> r == Refused(NotSuperAdmin)
    ensures r.Written? ==> found.Found? && date.Some?
  {
    if !IsSuperAdmin(role) then Refused(NotSuperAdmin)
    else match found
      case NotFound => Refused(CheckNotFound)
      case LookupFailed => Refused(LookupError)
      case Found(c) =>
        if date.None? then Refused(InvalidDate)
        else
          var t := c.target;
          var desc := if description.Some? then description else t.description;
          Written(Check(CheckTarget(t.entrepriseId, t.machineId, t.machineNom, desc, date),
                        EditedRelance(c.relance, activerStr, countStr),
                        c.delivery, c.verification, c.creePar, c.creeParNom))
  }

  /**
   * An edit keeps the sent count (setting 0 only where it was null), zeroes
   * the count when escalations are off, keeps the description unless one is
   * sent, and leaves the machine, the scheduler's marks and the verification alone.
   */
  lemma UpdateKeepsHistory(role: Option<string>, c: Check, description: Option<string>, date: Option<int>,
                           activerStr: Option<string>, countStr: Option<string>)
    requires UpdateCheck(role, Found(c), description, date, activerStr, countStr).Written?
    ensures var n := UpdateCheck(role, Found(c), description, date, activerStr, countStr).check;
            && (c.relance.nombreRelancesEnvoyees.Some? ==> n.relance.nombreRelancesEnvoyees == c.relance.nombreRelancesEnvoyees)
            && (n.relance.nombreRelancesEnvoyees != c.relance.nombreRelancesEnvoyees ==> n.relance.nombreRelancesEnvoyees == Some(0))
            && (!ActiverRelance(activerStr) ==> n.relance.nombreRelances == Some(0))
            && (description.None? ==> n.target.description == c.target.description)
            && n.target.machineId == c.target.machineId && n.target.machineNom == c.target.machineNom
            && n.target.dateVerification == date
            && n.delivery == c.delivery && n.verification == c.verification
  {
  }

  /** One entry of the verification history. */
  datatype HistoryEntry = HistoryEntry(entrepriseId: string, machineId: Option<string>, machineNom: Option<string>,
                                       description: Option<string>, dateVerificationProgrammee: Option<int>,
                                       dateVerificationReelle: int, verifiePar: Option<string>,
                                       verifieParNom: Option<string>, dateCreation: int)

  datatype VerifyOutcome = Verified(check: Check, entry: HistoryEntry) | VerifyRefused(reason: CheckRefusal)

  /**
   * `marquerVerifie`: the record is marked checked at `now` and an entry is
   * added to the enterprise's history. `userId` is the session's user (None
   * without a session), `verifier` the answer of that user's lookup.
   */
  function VerifyCheck(role: Option<string>, entrepriseId: string, found: Lookup<Check>, userId: Option<string>,
                       verifier: Lookup<Tickets.UserNames>, now: int): (r: VerifyOutcome)
    ensures !IsSuperAdmin(role) ==> r == VerifyRefused(NotSuperAdmin)
    ensures r.Verified? ==> found.Found? && r.check.verification == Verification(Some(true), Some(now))
  {
    if !IsSuperAdmin(role) then VerifyRefused(NotSuperAdmin)
    else match found
      case NotFound => VerifyRefused(CheckNotFound)
      case LookupFailed => VerifyRefused(LookupError)
      case Found(c) =>
        var t := c.target;
        Verified(c.(verification := Verification(Some(true), Some(now))),
                 HistoryEntry(entrepriseId, t.machineId, t.machineNom, t.description, t.dateVerification, now,
                              userId, Tickets.LookedUpName(userId, verifier, None), now))
  }

  /** The history entry copies the record's machine, description and scheduled date, dated now twice. */
  lemma VerifyRecordsHistory(role: Option<string>, entrepriseId: string, c: Check, userId: Option<string>,
                             verifier: Lookup<Tickets.UserNames>, now: int)
    requires IsSuperAdmin(role)
    ensures var r := VerifyCheck(role, entrepriseId, Found(c), userId, verifier, now);
            && r.Verified?
            && r.entry.machineId == c.target.machineId && r.entry.machineNom == c.target.machineNom
            && r.entry.description == c.target.description
            && r.entry.dateVerificationProgrammee == c.target.dateVerification
            && r.entry.dateVerificationReelle == now && r.entry.dateCreation == now
            && r.entry.verifiePar == userId
            && r.check.target == c.target && r.check.relance == c.relance && r.check.delivery == c.delivery
  {
  }

  /** `deleteAlerte` / `deleteRappel`: the only check is the role. */
  function DeleteCheckRefusal(role: Option<string>): (r: Option<CheckRefusal>)
    ensures r.None? <==> IsSuperAdmin(role)
  {
    if IsSuperAdmin(role) then None else Some(NotSuperAdmin)
  }

  /** Nobody but a superadmin changes a check: every operation refuses any other role first. */
  lemma OnlySuperAdminChangesChecks(role: Option<string>, entrepriseId: Option<string>, lastSelected: Option<string>,
                                    machineId: string, description: Option<string>, date: Option<int>,
                                    activerStr: Option<string>, countStr: Option<string>,
                                    machine: Lookup<Option<string>>, userId: Option<string>,
                                    names: Lookup<Tickets.UserNames>, found: Lookup<Check>, now: int)
    requires !IsSuperAdmin(role)
    ensures CreateCheck(role, entrepriseId, lastSelected, machineId, description, date, activerStr, countStr,
                        machine, userId, names) == Refused(NotSuperAdmin)
    ensures UpdateCheck(role, found, description, date, activerStr, countStr) == Refused(NotSuperAdmin)
    ensures VerifyCheck(role, machineId, found, userId, names, now) == VerifyRefused(NotSuperAdmin)
    ensures DeleteCheckRefusal(role) == Some(NotSuperAdmin)
  {
  }

  // ---------------------------------------------------------------------------
  // The reminder list views (RappelController.java:152-188)
  // ---------------------------------------------------------------------------

  const HISTORIQUE := "historique"
  const ACTIF := "actif"

  /** The `filtre` parameter, "actif" when absent or empty. */
  function ViewOf(filtre: Option<string>): (v: string)
    ensures filtre.Some? && filtre.value != "" ==> v == filtre.value
  {
    if filtre.None? || filtre.value == "" then ACTIF else filtre.value
  }

  predicate IsVerified(c: Check)
  {
    c.verification.verifie == Some(true)
  }

  /** The history view shows verified reminders; every other view the unverified ones. */
  predicate ShownIn(view: string, c: Check)
  {
    if view == HISTORIQUE then IsVerified(c) else !IsVerified(c)
  }

  /** The reminders a view lists, in stored order. */
  function Shown(all: seq<Check>, view: string): seq<Check>
  {
    if all == [] then []
    else
      var rest := Shown(all[..|all| - 1], view);
      if ShownIn(view, all[|all| - 1]) then rest + [all[|all| - 1]] else rest
  }

  /** The list loop of the reminders page. */
  method ListReminders(all: seq<Check>, filtre: Option<string>) returns (shown: seq<Check>)
    ensures shown == Shown(all, ViewOf(filtre))
  {
    var view := ViewOf(filtre);
    shown := [];
    var i := 0;
    while i < |all|
      invariant 0 <= i <= |all|
      invariant shown == Shown(all[..i], view)
    {
      assert all[..i + 1][..i] == all[..i];
      if ShownIn(view, all[i]) {
        shown := shown + [all[i]];
      }
      i := i + 1;
    }
    assert all[..i] == all;
  }

  /** A view lists exactly the stored reminders it selects. */
  lemma {:induction false} ShownMembers(all: seq<Check>, view: string, c: Check)
    ensures c in Shown(all, view) <==> c in all && ShownIn(view, c)
  {
    if all != [] {
      ShownMembers(all[..|all| - 1], view, c);
      assert all == all[..|all| - 1] + [all[|all| - 1]];
    }
  }

  /** Each reminder falls in exactly one of the two views. */
  lemma {:induction false} ViewsPartition(all: seq<Check>)
    ensures multiset(Shown(all, HISTORIQUE)) + multiset(Shown(all, ACTIF)) == multiset(all)
  {
    if all != [] {
      var init := all[..|all| - 1];
      ViewsPartition(init);
      assert all == init + [all[|all| - 1]];
    }
  }

  // ---------------------------------------------------------------------------
  // Schedulers (AlertSchedulerService.java, RappelSchedulerService.java)
  // ---------------------------------------------------------------------------

  /**
   * What became of one record's mail: the transport failed, the mail went
   * out but saving the record failed, or both succeeded.
   */
  datatype SendOutcome = SendFailed | SentNotSaved | SentAndSaved

  /** Where a record is stored: the enterprise and the record's id. */
  type CheckKey = (string, string)

  /** A record the store selected for mailing, with its key. */
  datatype Due = Due(key: CheckKey, check: Check)

  const UNKNOWN_MACHINE := "Machine inconnue"

  function MachineLabel(c: Check): string
  {
    c.target.machineNom.GetOr(UNKNOWN_MACHINE)
  }

  /** A mail can only be composed for a record with a scheduled date (a null date throws). */
  predicate Mailable(c: Check)
  {
    c.target.dateVerification.Some?
  }

  /** The record is marked only when its mail was composed, sent and the record saved. */
  predicate Delivered(d: Due, o: SendOutcome)
  {
    Mailable(d.check) && o == SentAndSaved
  }

  /** The first mail: `envoye` and `dateEnvoi`. */
  function MarkSent(c: Check, now: int): Check
  {
    c.(delivery := c.delivery.(envoye := Some(true), dateEnvoi := Some(now)))
  }

  /** An escalation: the sent count goes up by one (null counting as 0, Java `int` arithmetic), and its date. */
  function MarkEscalated(c: Check, now: int): Check
  {
    var sent := Wrap32(c.relance.nombreRelancesEnvoyees.GetOr(0) + 1);
    c.(relance := c.relance.(nombreRelancesEnvoyees := Some(sent)),
       delivery := c.delivery.(dateDerniereRelance := Some(now)))
  }

  function Mark(c: Check, isRelance: bool, now: int): Check
  {
    if isRelance then MarkEscalated(c, now) else MarkSent(c, now)
  }

  /** An escalation counts one more mail and touches nothing but the count and its date. */
  lemma EscalationCounts(c: Check, now: int)
    ensures var n := MarkEscalated(c, now);
            && (c.relance.nombreRelancesEnvoyees.None? ==> n.relance.nombreRelancesEnvoyees == Some(1))
            && (c.relance.nombreRelancesEnvoyees.Some? && IsInt32(c.relance.nombreRelancesEnvoyees.value)
                && c.relance.nombreRelancesEnvoyees.value < INT32_MAX
                ==> n.relance.nombreRelancesEnvoyees == Some(c.relance.nombreRelancesEnvoyees.value + 1))
            && n.target == c.target && n.verification == c.verification
            && n.relance.nombreRelances == c.relance.nombreRelances
            && n.delivery.envoye == c.delivery.envoye && n.delivery.dateEnvoi == c.delivery.dateEnvoi
  {
  }

  /** The store after one pass over the selected records. */
  function AfterRound(checks: map<CheckKey, Check>, due: seq<Due>, outs: seq<SendOutcome>, isRelance: bool,
                      now: int): map<CheckKey, Check>
    requires |due| == |outs|
  {
    if due == [] then checks
    else
      var n := |due| - 1;
      var prev := AfterRound(checks, due[..n], outs[..n], isRelance, now);
      if Delivered(due[n], outs[n]) then prev[due[n].key := Mark(due[n].check, isRelance, now)] else prev
  }

  /** The mails one pass hands to the transport: one per record with a scheduled date, in order. */
  function RoundMails(kind: MailKind, to: string, due: seq<Due>, isRelance: bool): seq<Mail>
  {
    if due == [] then []
    else
      var n := |due| - 1;
      var c := due[n].check;
      RoundMails(kind, to, due[..n], isRelance)
      + if Mailable(c)
        then [ComposeMail(kind, to, MachineLabel(c), c.target.description, c.target.dateVerification.value, isRelance)]
        else []
  }

  /** A record the pass did not deliver is left as it was. */
  lemma {:induction false} UndeliveredUnchanged(checks: map<CheckKey, Check>, due: seq<Due>, outs: seq<SendOutcome>,
                                                isRelance: bool, now: int, k: CheckKey)
    requires |due| == |outs|
    requires forall i :: 0 <= i < |due| && due[i].key == k ==> !Delivered(due[i], outs[i])
    ensures k in AfterRound(checks, due, outs, isRelance, now) <==> k in checks
    ensures k in checks ==> AfterRound(checks, due, outs, isRelance, now)[k] == checks[k]
  {
    if due != [] {
      var n := |due| - 1;
      assert forall i :: 0 <= i < n ==> due[..n][i] == due[i] && outs[..n][i] == outs[i];
      UndeliveredUnchanged(checks, due[..n], outs[..n], isRelance, now, k);
    }
  }

  /** With one entry per record, each delivered record is stored with its mark. */
  lemma {:induction false} DeliveredMarked(checks: map<CheckKey, Check>, due: seq<Due>, outs: seq<SendOutcome>,
                                           isRelance: bool, now: int, i: nat)
    requires |due| == |outs| && i < |due|
    requires forall a, b :: 0 <= a < b < |due| ==> due[a].key != due[b].key
    requires Delivered(due[i], outs[i])
    ensures due[i].key in AfterRound(checks, due, outs, isRelance, now)
    ensures AfterRound(checks, due, outs, isRelance, now)[due[i].key] == Mark(due[i].check, isRelance, now)
  {
    var n := |due| - 1;
    if i < n {
      assert due[..n][i] == due[i] && outs[..n][i] == outs[i];
      DeliveredMarked(checks, due[..n], outs[..n], isRelance, now, i);
      assert due[n].key != due[i].key;
    }
  }

  /** The whole run: the store after the first mails and then the escalations. */
  function RunResult(checks: map<CheckKey, Check>, to: Option<string>, due: seq<Due>, outs: seq<SendOutcome>,
                     escalate: seq<Due>, escOuts: seq<SendOutcome>, now: int): map<CheckKey, Check>
    requires |due| == |outs| && |escalate| == |escOuts|
  {
    if |due| > 0 && to.None? then checks
    else
      var first := AfterRound(checks, due, outs, false, now);
      if |escalate| > 0 && to.None? then first else AfterRound(first, escalate, escOuts, true, now)
  }

  /** Without a superadmin address the run stops before the first mail, escalations included. */
  lemma NoRecipientNoChange(checks: map<CheckKey, Check>, due: seq<Due>, outs: seq<SendOutcome>,
                            escalate: seq<Due>, escOuts: seq<SendOutcome>, now: int)
    requires |due| == |outs| && |escalate| == |escOuts|
    requires |due| > 0 || |escalate| > 0
    ensures RunResult(checks, None, due, outs, escalate, escOuts, now) == checks
  {
  }

  /** The records of the schedulers' store. */
  class CheckStore {
    var checks: map<CheckKey, Check>

    constructor (initial: map<CheckKey, Check>)
      ensures checks == initial
    {
      checks := initial;
    }

    /** One pass: mail each record in turn, marking it only when delivered; a failure does not stop the pass. */
    method Round(kind: MailKind, to: string, due: seq<Due>, outs: seq<SendOutcome>, isRelance: bool, now: int)
      returns (mails: seq<Mail>)
      requires |due| == |outs|
      modifies this
      ensures checks == AfterRound(old(checks), due, outs, isRelance, now)
      ensures mails == RoundMails(kind, to, due, isRelance)
    {
      mails := [];
      var i := 0;
      while i < |due|
        invariant 0 <= i <= |due|
        invariant checks == AfterRound(old(checks), due[..i], outs[..i], isRelance, now)
        invariant mails == RoundMails(kind, to, due[..i], isRelance)
      {
        assert due[..i + 1][..i] == due[..i] && outs[..i + 1][..i] == outs[..i];
        var c := due[i].check;
        if Mailable(c) {
          mails := mails + [ComposeMail(kind, to, MachineLabel(c), c.target.description,
                                        c.target.dateVerification.value, isRelance)];
          if outs[i] == SentAndSaved {
            checks := checks[due[i].key := Mark(c, isRelance, now)];
          }
        }
        i := i + 1;
      }
      assert due[..i] == due && outs[..i] == outs;
    }

    /**
     * `checkAndSendAlertes` / `checkAndSendRappels`: the first mails, then the
     * escalations. The superadmin address is looked up once per non-empty
     * list; when there is none the lookup throws and the run stops.
     */
    method Run(kind: MailKind, users: seq<UserContact>, due: seq<Due>, outs: seq<SendOutcome>,
               escalate: seq<Due>, escOuts: seq<SendOutcome>, now: int)
      returns (mails: seq<Mail>, lookups: nat)
      requires |due| == |outs| && |escalate| == |escOuts|
      modifies this
      ensures checks == RunResult(old(checks), FirstSuperAdminEmail(users), due, outs, escalate, escOuts, now)
      ensures lookups == (if |due| > 0 then 1 else 0)
                         + (if |escalate| > 0 && (|due| == 0 || FirstSuperAdminEmail(users).Some?) then 1 else 0)
      ensures FirstSuperAdminEmail(users).Some? ==>
                mails == RoundMails(kind, FirstSuperAdminEmail(users).value, due, false)
                         + RoundMails(kind, FirstSuperAdminEmail(users).value, escalate, true)
      ensures FirstSuperAdminEmail(users).None? ==> mails == []
    {
      mails, lookups := [], 0;
      if |due| > 0 {
        var to := GetSuperAdminEmail(users);
        lookups := lookups + 1;
        if to.None? {
          return;
        }
        mails := Round(kind, to.value, due, outs, false, now);
      }
      if |escalate| > 0 {
        var to := GetSuperAdminEmail(users);
        lookups := lookups + 1;
        if to.None? {
          return;
        }
        var more := Round(kind, to.value, escalate, escOuts, true, now);
        mails := mails + more;
      }
    }
  }
}
