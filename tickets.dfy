/**
 * Tickets: the entity with its defaulting getters, its write-once status
 * dates and its comment list, and the controller rules around it (the Kanban
 * columns, the creation guards and defaults, the partial update, archiving
 * and the comment guard).
 */
module Tickets {
  import opened Base
  import opened JavaStrings
  import opened Roles

  /** A comment: its text, author and optional image, dated when it is built. */
  datatype Commentaire = Commentaire(
    texte: Option<string>, auteurId: Option<string>, auteurNom: Option<string>,
    imageUrl: Option<string>, dateCreation: int)

  /** The status, its modification time and the two dates `setStatut` writes once. */
  datatype StatusStamps = StatusStamps(
    statut: Option<string>, dateModification: Option<int>,
    dateTerminaison: Option<int>, dateArchivage: Option<int>)

  /** Every other field of a ticket besides the comment list. */
  datatype TicketDetails = TicketDetails(
    ticketId: Option<string>, entrepriseId: Option<string>, titre: Option<string>,
    description: Option<string>, priorite: Option<string>,
    machineId: Option<string>, machineNom: Option<string>,
    assigneA: Option<string>, assigneANom: Option<string>,
    creePar: Option<string>, creeParNom: Option<string>,
    dateCreation: Option<int>, dateEcheance: Option<int>, categorie: Option<string>)

  const A_FAIRE: string := "a_faire"
  const EN_COURS: string := "en_cours"
  const TERMINE: string := "termine"
  const ARCHIVE: string := "archive"
  const NORMALE: string := "normale"

  // ---------------------------------------------------------------------------
  // The status stamps (Ticket.java:73-84)
  // ---------------------------------------------------------------------------

  /**
   * `setStatut(s)` at time `now`: the status is replaced, the modification
   * time is `now`, and the completion and archive dates are set to `now` the
   * first time the matching status is given, never rewritten afterwards.
   */
  function StampStatut(st: StatusStamps, s: Option<string>, now: int): (r: StatusStamps)
    ensures r.statut == s && r.dateModification == Some(now)
    ensures st.dateTerminaison.Some? ==> r.dateTerminaison == st.dateTerminaison
    ensures st.dateArchivage.Some? ==> r.dateArchivage == st.dateArchivage
    ensures r.dateTerminaison.Some? <==> st.dateTerminaison.Some? || s == Some(TERMINE)
    ensures r.dateArchivage.Some? <==> st.dateArchivage.Some? || s == Some(ARCHIVE)
  {
    StatusStamps(
      s, Some(now),
      if s == Some(TERMINE) && st.dateTerminaison.None? then Some(now) else st.dateTerminaison,
      if s == Some(ARCHIVE) && st.dateArchivage.None? then Some(now) else st.dateArchivage)
  }

  /** A run of `setStatut` calls, each with its status and time, in order. */
  function StampAll(st: StatusStamps, changes: seq<(Option<string>, int)>): StatusStamps
    decreases |changes|
  {
    if changes == [] then st else StampAll(StampStatut(st, changes[0].0, changes[0].1), changes[1..])
  }

  /** The time of the first change to status `s`, if any. */
  function FirstTime(changes: seq<(Option<string>, int)>, s: string): Option<int>
    decreases |changes|
  {
    if changes == [] then None
    else if changes[0].0 == Some(s) then Some(changes[0].1)
    else FirstTime(changes[1..], s)
  }

  /**
   * Write-once, over any history: the completion date is the one the ticket
   * already had, otherwise the time of the first change to "termine"; the
   * archive date likewise with "archive".
   */
  lemma {:induction false} StampsAreWriteOnce(st: StatusStamps, changes: seq<(Option<string>, int)>)
    ensures StampAll(st, changes).dateTerminaison
            == if st.dateTerminaison.Some? then st.dateTerminaison else FirstTime(changes, TERMINE)
    ensures StampAll(st, changes).dateArchivage
            == if st.dateArchivage.Some? then st.dateArchivage else FirstTime(changes, ARCHIVE)
    decreases |changes|
  {
    if changes != [] {
      StampsAreWriteOnce(StampStatut(st, changes[0].0, changes[0].1), changes[1..]);
    }
  }

  /** After a non-empty history the status is the last one given and the modification time the last call's. */
  lemma {:induction false} StampsFollowLastChange(st: StatusStamps, changes: seq<(Option<string>, int)>)
    requires changes != []
    ensures StampAll(st, changes).statut == changes[|changes| - 1].0
    ensures StampAll(st, changes).dateModification == Some(changes[|changes| - 1].1)
    decreases |changes|
  {
    if |changes| > 1 {
      StampsFollowLastChange(StampStatut(st, changes[0].0, changes[0].1), changes[1..]);
    }
  }

  /** Archiving twice keeps the first archive date. */
  lemma ArchiveTwiceKeepsDate(st: StatusStamps, t1: int, t2: int)
    ensures StampStatut(StampStatut(st, Some(ARCHIVE), t1), Some(ARCHIVE), t2).dateArchivage
            == StampStatut(st, Some(ARCHIVE), t1).dateArchivage
    ensures StampStatut(st, Some(ARCHIVE), t1).dateArchivage.Some?
  {
  }

  /** `getStatut`/`getPriorite`: null reads as "a_faire" / "normale". */
  function StatutOf(s: Option<string>): string
  {
    if s.Some? then s.value else A_FAIRE
  }

  function PrioriteOf(p: Option<string>): string
  {
    if p.Some? then p.value else NORMALE
  }

  // ---------------------------------------------------------------------------
  // The entity (Ticket.java)
  // ---------------------------------------------------------------------------

  /**
   * The ticket. The fields `setStatut` and `addCommentaire` update are fields
   * of their own; the fields only plain setters write are held together in
   * `details`.
   */
  class Ticket {
    var details: TicketDetails
    var statut: Option<string>
    var dateModification: Option<int>
    var dateTerminaison: Option<int>
    var dateArchivage: Option<int>
    var commentaires: seq<Commentaire>

    function Stamps(): StatusStamps
      reads this
    {
      StatusStamps(statut, dateModification, dateTerminaison, dateArchivage)
    }

    /** `new Ticket()` at time `now`: "a_faire", "normale", no comments, created and modified now. */
    constructor (now: int)
      ensures Stamps() == StatusStamps(Some(A_FAIRE), Some(now), None, None)
      ensures details == TicketDetails(None, None, None, None, Some(NORMALE), None, None, None, None,
                                       None, None, Some(now), None, None)
      ensures commentaires == []
    {
      details := TicketDetails(None, None, None, None, Some(NORMALE), None, None, None, None,
                               None, None, Some(now), None, None);
      statut := Some(A_FAIRE);
      dateModification := Some(now);
      dateTerminaison, dateArchivage := None, None;
      commentaires := [];
    }

    /** `getStatut()`. */
    function Statut(): string
      reads this
    {
      StatutOf(statut)
    }

    /** `getPriorite()`. */
    function Priorite(): string
      reads this
    {
      PrioriteOf(details.priorite)
    }

    /** `setStatut`: the stamps move as `StampStatut` says; nothing else changes. */
    method SetStatut(s: Option<string>, now: int)
      modifies this
      ensures Stamps() == StampStatut(old(Stamps()), s, now)
      ensures details == old(details) && commentaires == old(commentaires)
    {
      statut := s;
      dateModification := Some(now);
      if s == Some(TERMINE) && dateTerminaison.None? {
        dateTerminaison := Some(now);
      }
      if s == Some(ARCHIVE) && dateArchivage.None? {
        dateArchivage := Some(now);
      }
    }

    /** `setCommentaires`: null stores an empty list. */
    method SetCommentaires(cs: Option<seq<Commentaire>>)
      modifies this
      ensures commentaires == (if cs.Some? then cs.value else [])
      ensures Stamps() == old(Stamps()) && details == old(details)
    {
      commentaires := if cs.Some? then cs.value else [];
    }

    /** `addCommentaire`: one comment more at the end, and the modification time is `now`. */
    method AddCommentaire(c: Commentaire, now: int)
      modifies this
      ensures commentaires == old(commentaires) + [c]
      ensures dateModification == Some(now)
      ensures statut == old(statut) && dateTerminaison == old(dateTerminaison) && dateArchivage == old(dateArchivage)
      ensures details == old(details)
    {
      commentaires := commentaires + [c];
      dateModification := Some(now);
    }

    /** `hashCode`: `Objects.hash(ticketId)`. */
    function Hash(): (h: int)
      reads this
      ensures IsInt32(h)
    {
      ObjectsHash(details.ticketId)
    }
  }

  /** `equals`: the same object, or two tickets with equal ids (two null ids count as equal). */
  predicate SameTicket(a: Ticket, b: Ticket)
    reads a, b
  {
    a == b || a.details.ticketId == b.details.ticketId
  }

  /** Ticket equality is an equivalence that agrees with the hash, and depends on the id alone. */
  lemma TicketEqualityByIdOnly(a: Ticket, b: Ticket, c: Ticket)
    ensures SameTicket(a, b) <==> a.details.ticketId == b.details.ticketId
    ensures SameTicket(a, b) ==> SameTicket(b, a) && a.Hash() == b.Hash()
    ensures SameTicket(a, b) && SameTicket(b, c) ==> SameTicket(a, c)
  {
  }

  // ---------------------------------------------------------------------------
  // The Kanban columns (TicketController.java:156-170)
  // ---------------------------------------------------------------------------

  /** The tickets of one column: those whose status reads as `s`, in list order. */
  function Column(ts: seq<Ticket>, s: string): seq<Ticket>
    reads ts
    decreases |ts|
  {
    if ts == [] then []
    else
      var n := |ts| - 1;
      Column(ts[..n], s) + if ts[n].Statut() == s then [ts[n]] else []
  }

  /** A status that has a column on the board. */
  predicate OnBoard(s: string)
  {
    s == A_FAIRE || s == EN_COURS || s == TERMINE || s == ARCHIVE
  }

  /** The tickets no column shows. */
  function OffBoard(ts: seq<Ticket>): seq<Ticket>
    reads ts
    decreases |ts|
  {
    if ts == [] then []
    else
      var n := |ts| - 1;
      OffBoard(ts[..n]) + if !OnBoard(ts[n].Statut()) then [ts[n]] else []
  }

  /** A ticket is in a column exactly when it is listed and its status is that column's. */
  lemma {:induction false} ColumnMembers(ts: seq<Ticket>, s: string)
    ensures forall t :: t in Column(ts, s) <==> t in ts && t.Statut() == s
    decreases |ts|
  {
    if ts != [] {
      var n := |ts| - 1;
      ColumnMembers(ts[..n], s);
      assert ts == ts[..n] + [ts[n]];
    }
  }

  /** Columns keep list order: the column of a concatenation is the concatenation of the columns. */
  lemma {:induction false} ColumnOfConcat(xs: seq<Ticket>, ys: seq<Ticket>, s: string)
    ensures Column(xs + ys, s) == Column(xs, s) + Column(ys, s)
    decreases |ys|
  {
    if ys == [] {
      assert xs + ys == xs;
    } else {
      var n := |ys| - 1;
      ColumnOfConcat(xs, ys[..n], s);
      assert (xs + ys)[..|xs + ys| - 1] == xs + ys[..n];
    }
  }

  /**
   * The four columns and the unshown tickets split the list: every ticket is
   * counted exactly once, so the column sizes add up to the number of tickets
   * whose status is on the board.
   */
  lemma {:induction false} KanbanPartition(ts: seq<Ticket>)
    ensures |Column(ts, A_FAIRE)| + |Column(ts, EN_COURS)| + |Column(ts, TERMINE)|
            + |Column(ts, ARCHIVE)| + |OffBoard(ts)| == |ts|
    decreases |ts|
  {
    if ts != [] {
      KanbanPartition(ts[..|ts| - 1]);
    }
  }

  /** Tickets with any other status (say "bloque") appear in no column. */
  lemma OffBoardTicketsHidden(ts: seq<Ticket>, t: Ticket)
    requires t in ts && !OnBoard(t.Statut())
    ensures t !in Column(ts, A_FAIRE) && t !in Column(ts, EN_COURS)
    ensures t !in Column(ts, TERMINE) && t !in Column(ts, ARCHIVE)
  {
    ColumnMembers(ts, A_FAIRE);
    ColumnMembers(ts, EN_COURS);
    ColumnMembers(ts, TERMINE);
    ColumnMembers(ts, ARCHIVE);
  }

  // ---------------------------------------------------------------------------
  // Creation (TicketController.java:226-315)
  // ---------------------------------------------------------------------------

  /** The display name built from a user record: "prenom nom", each part optional. */
  function DisplayName(prenom: Option<string>, nom: Option<string>): string
  {
    (if prenom.Some? then prenom.value + " " else "") + (if nom.Some? then nom.value else "")
  }

  /** A user record as the controllers read it: first name and last name. */
  type UserNames = (Option<string>, Option<string>)

  datatype CreateRefusal = RoleNotAllowed | NoEnterprise | NoTitle

  /** The enterprise a creation uses: the one given if it has text, else the last one selected in the session. */
  function CreationEnterprise(entrepriseId: Option<string>, lastSelected: Option<string>): Option<string>
  {
    if HasTextOpt(entrepriseId) then entrepriseId else lastSelected
  }

  /** Why a creation is refused, checked in the controller's order, or nothing. */
  function CreateRefusalOf(role: Option<string>, entrepriseId: Option<string>, lastSelected: Option<string>,
                           titre: string): Option<CreateRefusal>
  {
    if !MayCreateTicket(role) then Some(RoleNotAllowed)
    else if !HasTextOpt(CreationEnterprise(entrepriseId, lastSelected)) then Some(NoEnterprise)
    else if !HasText(titre) then Some(NoTitle)
    else None
  }

  /** A creation goes through exactly for a permitted role, an enterprise and a non-blank title. */
  lemma CreateRefusalCases(role: Option<string>, e: Option<string>, last: Option<string>, titre: string)
    ensures CreateRefusalOf(role, e, last, titre).None?
            <==> MayCreateTicket(role) && (HasTextOpt(e) || HasTextOpt(last)) && HasText(titre)
    ensures CreateRefusalOf(role, e, last, titre) == Some(RoleNotAllowed) <==> !MayCreateTicket(role)
    ensures CreateRefusalOf(role, e, last, titre) == Some(NoTitle)
            <==> MayCreateTicket(role) && (HasTextOpt(e) || HasTextOpt(last)) && !HasText(titre)
  {
  }

  /** The name a lookup gives: a found user's display name; null when absent; unchanged when the lookup fails. */
  function LookedUpName(id: Option<string>, user: Lookup<UserNames>, current: Option<string>): Option<string>
  {
    if !HasTextOpt(id) then current
    else match user
      case Found(names) => Some(DisplayName(names.0, names.1))
      case NotFound => current
      case LookupFailed => current
  }

  /** The outcome of a creation. */
  datatype Creation = Created(ticket: Ticket) | CreateRefused(reason: CreateRefusal)

  /**
   * `createTicket`. The due date is given as the instant the form's date
   * parses to (None when blank or unparsable); the machine, assignee and
   * creator records are given as the lookups' answers.
   */
  method CreateTicket(role: Option<string>, entrepriseId: Option<string>, lastSelected: Option<string>,
                      titre: string, description: Option<string>, priorite: Option<string>,
                      machineId: Option<string>, assigneA: Option<string>, categorie: Option<string>,
                      echeance: Option<int>, machine: Lookup<Option<string>>,
                      assignee: Lookup<UserNames>, userId: Option<string>, creator: Lookup<UserNames>,
                      now: int)
    returns (r: Creation)
    ensures r.CreateRefused? <==> CreateRefusalOf(role, entrepriseId, lastSelected, titre).Some?
    ensures r.CreateRefused? ==> r.reason == CreateRefusalOf(role, entrepriseId, lastSelected, titre).value
    ensures r.Created? ==> fresh(r.ticket)
    ensures r.Created? ==> r.ticket.Stamps() == StatusStamps(Some(A_FAIRE), Some(now), None, None)
    ensures r.Created? ==> r.ticket.commentaires == []
    ensures r.Created? ==> r.ticket.details == TicketDetails(
              None, CreationEnterprise(entrepriseId, lastSelected), Some(titre),
              Some(if description.Some? then description.value else ""),
              Some(if priorite.Some? then priorite.value else NORMALE),
              machineId,
              if HasTextOpt(machineId) && machine.Found? then machine.value else None,
              assigneA, LookedUpName(assigneA, assignee, None),
              userId, LookedUpName(userId, creator, None),
              Some(now), echeance, categorie)
  {
    var refusal := CreateRefusalOf(role, entrepriseId, lastSelected, titre);
    if refusal.Some? {
      return CreateRefused(refusal.value);
    }
    var ticket := new Ticket(now);
    ticket.SetStatut(Some(A_FAIRE), now);
    var d := ticket.details.(
      entrepriseId := CreationEnterprise(entrepriseId, lastSelected),
      titre := Some(titre),
      description := Some(if description.Some? then description.value else ""),
      priorite := Some(if priorite.Some? then priorite.value else NORMALE),
      machineId := machineId, assigneA := assigneA, categorie := categorie, dateEcheance := echeance,
      machineNom := if HasTextOpt(machineId) && machine.Found? then machine.value else None,
      assigneANom := LookedUpName(assigneA, assignee, None),
      creePar := userId, creeParNom := LookedUpName(userId, creator, None));
    ticket.details := d;
    r := Created(ticket);
  }

  // ---------------------------------------------------------------------------
  // Partial update (TicketController.java:363-460)
  // ---------------------------------------------------------------------------

  /** The request parameters of `updateTicket`, each possibly absent. */
  datatype UpdateRequest = UpdateRequest(
    titre: Option<string>, description: Option<string>, priorite: Option<string>,
    machineId: Option<string>, assigneA: Option<string>, categorie: Option<string>,
    dateEcheance: Option<string>)

  /**
   * The details after `updateTicket`: title and priority only when they have
   * text; description, category, machine and assignee whenever given; a
   * blank machine or assignee clears its display name; a blank due date
   * clears the due date, a parsable one replaces it, an unparsable one keeps it.
   */
  function UpdatedDetails(d: TicketDetails, req: UpdateRequest, machine: Lookup<Option<string>>,
                          assignee: Lookup<UserNames>, echeance: Option<int>): TicketDetails
  {
    d.(
      titre := if HasTextOpt(req.titre) then req.titre else d.titre,
      description := if req.description.Some? then req.description else d.description,
      priorite := if HasTextOpt(req.priorite) then req.priorite else d.priorite,
      machineId := if req.machineId.Some? then req.machineId else d.machineId,
      machineNom :=
        if req.machineId.None? then d.machineNom
        else if !HasText(req.machineId.value) then None
        else (match machine
              case Found(nom) => nom
              case NotFound => None
              case LookupFailed => d.machineNom),
      assigneA := if req.assigneA.Some? then req.assigneA else d.assigneA,
      assigneANom :=
        if req.assigneA.None? then d.assigneANom
        else if !HasText(req.assigneA.value) then None
        else (match assignee
              case Found(names) => Some(DisplayName(names.0, names.1))
              case NotFound => None
              case LookupFailed => d.assigneANom),
      categorie := if req.categorie.Some? then req.categorie else d.categorie,
      dateEcheance :=
        if req.dateEcheance.None? then d.dateEcheance
        else if !HasText(req.dateEcheance.value) then None
        else if echeance.Some? then echeance else d.dateEcheance)
  }

  /** The request with no parameter at all. */
  const EmptyRequest := UpdateRequest(None, None, None, None, None, None, None)

  /** An empty request changes nothing, and the identity, creator and creation date are never touched. */
  lemma UpdateKeepsIdentity(d: TicketDetails, req: UpdateRequest, m: Lookup<Option<string>>,
                            u: Lookup<UserNames>, e: Option<int>)
    ensures UpdatedDetails(d, EmptyRequest, m, u, e) == d
    ensures var r := UpdatedDetails(d, req, m, u, e);
            r.ticketId == d.ticketId && r.entrepriseId == d.entrepriseId && r.creePar == d.creePar
            && r.creeParNom == d.creeParNom && r.dateCreation == d.dateCreation
  {
  }

  /** Title and priority change only to a non-blank value; description and category only to the one given. */
  lemma UpdateFieldRules(d: TicketDetails, req: UpdateRequest, m: Lookup<Option<string>>,
                         u: Lookup<UserNames>, e: Option<int>)
    ensures var r := UpdatedDetails(d, req, m, u, e);
            (r.titre != d.titre ==> HasTextOpt(req.titre) && r.titre == req.titre)
            && (r.priorite != d.priorite ==> HasTextOpt(req.priorite) && r.priorite == req.priorite)
            && (req.description.Some? ==> r.description == req.description)
            && (req.description.None? ==> r.description == d.description)
            && (req.categorie.Some? ==> r.categorie == req.categorie)
            && (req.categorie.None? ==> r.categorie == d.categorie)
            && (req.titre.Some? && !HasText(req.titre.value) ==> r.titre == d.titre)
  {
  }

  /** A blank machine, assignee or due date clears the matching display name or date. */
  lemma UpdateClears(d: TicketDetails, req: UpdateRequest, m: Lookup<Option<string>>,
                     u: Lookup<UserNames>, e: Option<int>)
    ensures var r := UpdatedDetails(d, req, m, u, e);
            (req.machineId.Some? && !HasText(req.machineId.value) ==> r.machineNom.None? && r.machineId == req.machineId)
            && (req.assigneA.Some? && !HasText(req.assigneA.value) ==> r.assigneANom.None?)
            && (req.dateEcheance.Some? && !HasText(req.dateEcheance.value) ==> r.dateEcheance.None?)
  {
  }

  /** Submitting the same form twice, with the same lookups, gives what submitting it once gave. */
  lemma UpdateIdempotent(d: TicketDetails, req: UpdateRequest, m: Lookup<Option<string>>,
                         u: Lookup<UserNames>, e: Option<int>)
    ensures UpdatedDetails(UpdatedDetails(d, req, m, u, e), req, m, u, e) == UpdatedDetails(d, req, m, u, e)
  {
  }

  datatype EditRefusal = NotSuperAdmin | TicketNotFound

  /** `updateTicket`: superadmin only; the stamps and comments are left alone. */
  method UpdateTicket(role: Option<string>, t: Ticket?, req: UpdateRequest, machine: Lookup<Option<string>>,
                      assignee: Lookup<UserNames>, echeance: Option<int>)
    returns (r: Option<EditRefusal>)
    modifies t
    ensures r == (if !IsSuperAdmin(role) then Some(NotSuperAdmin) else if t == null then Some(TicketNotFound) else None)
    ensures t != null && r.None? ==> t.details == UpdatedDetails(old(t.details), req, machine, assignee, echeance)
    ensures t != null ==> t.Stamps() == old(t.Stamps()) && t.commentaires == old(t.commentaires)
    ensures t != null && r.Some? ==> t.details == old(t.details)
  {
    if !IsSuperAdmin(role) {
      return Some(NotSuperAdmin);
    }
    if t == null {
      return Some(TicketNotFound);
    }
    t.details := UpdatedDetails(t.details, req, machine, assignee, echeance);
    r := None;
  }

  /** `updateStatut` and `archiveTicket`: any signed-in user; a missing ticket is reported. */
  method ChangeStatut(t: Ticket?, s: string, now: int) returns (found: bool)
    modifies t
    ensures found <==> t != null
    ensures t != null ==> t.Stamps() == StampStatut(old(t.Stamps()), Some(s), now)
    ensures t != null ==> t.details == old(t.details) && t.commentaires == old(t.commentaires)
  {
    if t == null {
      return false;
    }
    t.SetStatut(Some(s), now);
    found := true;
  }

  /** `archiveTicket`: the status becomes "archive" and the archive date is set, once. */
  method ArchiveTicket(t: Ticket?, now: int) returns (found: bool)
    modifies t
    ensures found <==> t != null
    ensures t != null ==> t.Statut() == ARCHIVE && t.dateArchivage.Some?
    ensures t != null && old(t.dateArchivage).Some? ==> t.dateArchivage == old(t.dateArchivage)
    ensures t != null ==> t.Stamps() == StampStatut(old(t.Stamps()), Some(ARCHIVE), now)
    ensures t != null ==> t.dateModification == Some(now) && t.dateTerminaison == old(t.dateTerminaison)
    ensures t != null ==> t.details == old(t.details) && t.commentaires == old(t.commentaires)
  {
    found := ChangeStatut(t, ARCHIVE, now);
  }

  // ---------------------------------------------------------------------------
  // Comments (TicketController.java:599-744)
  // ---------------------------------------------------------------------------

  /** What the form sends as its image: none, one stored at a URL, or one whose upload failed. */
  datatype ImageUpload = NoImage | Uploaded(url: string) | UploadFailed

  /** A comment needs text or an image. */
  predicate CommentAccepted(texte: string, image: ImageUpload)
  {
    HasText(texte) || !image.NoImage?
  }

  /** The author shown on a comment: the user's display name, or "Utilisateur inconnu". */
  function AuthorName(userId: Option<string>, user: Lookup<UserNames>): string
  {
    if HasTextOpt(userId) && user.Found? then DisplayName(user.value.0, user.value.1)
    else "Utilisateur inconnu"
  }

  /** The comment built for a request. */
  function CommentFor(texte: string, userId: Option<string>, user: Lookup<UserNames>,
                      imageUrl: Option<string>, now: int): Commentaire
  {
    Commentaire(Some(if HasText(texte) then texte else ""), userId, Some(AuthorName(userId, user)), imageUrl, now)
  }

  datatype CommentRefusal = CommentEmpty | CommentTicketMissing | CommentUploadFailed

  /** The comment guard: a blank text with no image is refused, whatever else is sent. */
  lemma CommentGuard(texte: string, image: ImageUpload)
    ensures !CommentAccepted(texte, image) <==> !HasText(texte) && image == NoImage
    ensures CommentAccepted("", Uploaded("u")) && !CommentAccepted(" ", NoImage)
  {
    assert !HasText(" ") by { assert IsWhitespace(" "[0]); }
  }

  /**
   * The JSON endpoint `addCommentaireApi`: an empty comment, a missing ticket
   * or a failed upload is refused and leaves the ticket as it was; otherwise
   * one comment is appended.
   */
  method AddCommentaireApi(t: Ticket?, texte: string, image: ImageUpload, userId: Option<string>,
                           user: Lookup<UserNames>, now: int)
    returns (r: Option<CommentRefusal>)
    modifies t
    ensures r == (if !CommentAccepted(texte, image) then Some(CommentEmpty)
                  else if t == null then Some(CommentTicketMissing)
                  else if image.UploadFailed? then Some(CommentUploadFailed) else None)
    ensures t != null && r.Some? ==> t.commentaires == old(t.commentaires) && t.Stamps() == old(t.Stamps())
    ensures t != null && r.None? ==> (t.commentaires == old(t.commentaires)
              + [CommentFor(texte, userId, user, if image.Uploaded? then Some(image.url) else None, now)]
              && t.dateModification == Some(now))
    ensures t != null && r.None? ==> t.statut == old(t.statut) && t.dateTerminaison == old(t.dateTerminaison)
                                     && t.dateArchivage == old(t.dateArchivage)
    ensures t != null ==> t.details == old(t.details)
  {
    if !CommentAccepted(texte, image) {
      return Some(CommentEmpty);
    }
    if t == null {
      return Some(CommentTicketMissing);
    }
    if image.UploadFailed? {
      return Some(CommentUploadFailed);
    }
    var c := CommentFor(texte, userId, user, if image.Uploaded? then Some(image.url) else None, now);
    t.AddCommentaire(c, now);
    r := None;
  }

  /** The form endpoint `addCommentaire`: the same, except that a failed upload keeps the comment without its image. */
  method AddCommentaireForm(t: Ticket?, texte: string, image: ImageUpload, userId: Option<string>,
                            user: Lookup<UserNames>, now: int)
    returns (r: Option<CommentRefusal>)
    modifies t
    ensures r == (if !CommentAccepted(texte, image) then Some(CommentEmpty)
                  else if t == null then Some(CommentTicketMissing) else None)
    ensures t != null && r.Some? ==> t.commentaires == old(t.commentaires) && t.Stamps() == old(t.Stamps())
    ensures t != null && r.None? ==> (t.commentaires == old(t.commentaires)
              + [CommentFor(texte, userId, user, if image.Uploaded? then Some(image.url) else None, now)]
              && t.dateModification == Some(now))
    ensures t != null && r.None? ==> t.statut == old(t.statut) && t.dateTerminaison == old(t.dateTerminaison)
                                     && t.dateArchivage == old(t.dateArchivage)
    ensures t != null ==> t.details == old(t.details)
  {
    if !CommentAccepted(texte, image) {
      return Some(CommentEmpty);
    }
    if t == null {
      return Some(CommentTicketMissing);
    }
    var c := CommentFor(texte, userId, user, if image.Uploaded? then Some(image.url) else None, now);
    t.AddCommentaire(c, now);
    r := None;
  }
}
