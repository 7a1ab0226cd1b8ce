/** Reports of publications (`ReporteController`): a user reports a publication once; the
    report is stored with a history entry and every administrator is notified; an
    administrator edits, deletes or accepts a report, accepting it deleting the publication. */
module Reports {
  import opened Wrappers
  import opened Text
  import opened Seqs
  import opened Domain
  import opened SocketTransport
  import opened Publications

  /** `caller` has already reported publication `pubId`. */
  predicate HasReported(reportes: seq<Reporte>, caller: Email, pubId: nat) {
    exists rep :: rep in reportes && rep.reporter == caller && rep.publicacionId == pubId
  }

  /** The (user, publication) pair a report is about. */
  function PairOf(rep: Reporte): (Email, nat) {
    (rep.reporter, rep.publicacionId)
  }

  /** No user has reported the same publication twice. */
  predicate OneReportPerPair(reportes: seq<Reporte>) {
    KeysDistinct(reportes, PairOf)
  }

  /** The guards of `create`, in their order: the publication must exist (404) and the
      caller must not have reported it before (409). */
  function CreateGuard(pubs: seq<Publicacion>, reportes: seq<Reporte>, caller: Email, pubId: nat): (r: Option<nat>)
    ensures r == Some(NotFound) <==> FindPublication(pubs, pubId).None?
    ensures r == Some(Conflict) <==> FindPublication(pubs, pubId).Some? && HasReported(reportes, caller, pubId)
    ensures r.None? <==> FindPublication(pubs, pubId).Some? && !HasReported(reportes, caller, pubId)
  {
    if FindPublication(pubs, pubId).None? then Some(NotFound)
    else if HasReported(reportes, caller, pubId) then Some(Conflict)
    else None
  }

  /** A report the guard lets through keeps every (user, publication) pair reported at most once. */
  lemma AdmittedReportKeepsOnePerPair(pubs: seq<Publicacion>, reportes: seq<Reporte>, rep: Reporte)
    requires OneReportPerPair(reportes)
    requires CreateGuard(pubs, reportes, rep.reporter, rep.publicacionId).None?
    ensures OneReportPerPair(reportes + [rep])
  {
    var s := reportes + [rep];
    forall i, j | 0 <= i < j < |s| ensures PairOf(s[i]) != PairOf(s[j]) {
      if j == |reportes| {
        assert s[i] in reportes;
      } else {
        assert s[i] == reportes[i] && s[j] == reportes[j];
      }
    }
  }

  /** The history line written with a new report. */
  function HistoryText(caller: Email, pubId: nat, description: string): string {
    HistoryCreated + caller + HistoryFor + NatToString(pubId) + HistorySays + description
  }

  const HistoryCreated := "Reporte creado por "
  const HistoryFor := " para la publicacion con id "
  const HistorySays := " dice qué : "

  const ReportPreviewText := "ha reportado la publicación con id "

  /** The preview text of the notification sent to the administrators. */
  function ReportPreview(pubId: nat): string {
    ReportPreviewText + NatToString(pubId)
  }

  /** `findBy({ role: ADMIN })`: the administrators, in table order. */
  function Admins(users: seq<User>): (r: seq<User>)
    ensures forall u :: u in r <==> u in users && u.role == RoleAdmin
    ensures UniqueCorreos(users) ==> UniqueCorreos(r)
  {
    if users == [] then []
    else
      var rest := Admins(users[1..]);
      assert UniqueCorreos(users) ==> forall u :: u in users[1..] ==> u.correo != users[0].correo;
      if users[0].role == RoleAdmin then [users[0]] + rest else rest
  }

  /** The stored REPORT notification for one administrator. */
  function AdminNotice(admin: User, emisor: Email, reportId: nat, pubId: nat): Notificacion {
    Notificacion(ReportNotice, false, emisor, admin.correo, reportId, ReportPreview(pubId))
  }

  /** One stored notification per administrator, in order. */
  function AdminNotices(admins: seq<User>, emisor: Email, reportId: nat, pubId: nat): (r: seq<Notificacion>)
    ensures |r| == |admins|
    ensures forall i :: 0 <= i < |r| ==> r[i] == AdminNotice(admins[i], emisor, reportId, pubId)
  {
    if admins == [] then []
    else AdminNotices(admins[..|admins| - 1], emisor, reportId, pubId) + [AdminNotice(admins[|admins| - 1], emisor, reportId, pubId)]
  }

  /** The data pushed to each administrator: the reporter as actor, the report id as link. */
  function ReportData(emisor: User, reportId: nat, pubId: nat): NotificationData {
    NotificationData(TypeName(ReportNotice), Some(emisor.nombreCompleto), emisor.username, emisor.fotoUrl,
                     ReportPreview(pubId), LinkNumber(reportId))
  }

  /** The pushes to the administrators, in order (none when the notifier is not set). */
  function AdminEmits(ready: bool, admins: seq<User>, data: NotificationData, now: int): seq<Emit> {
    if admins == [] then []
    else AdminEmits(ready, admins[..|admins| - 1], data, now) + Notified(ready, admins[|admins| - 1].correo, data, now)
  }

  /** One notice per entry of a list of administrators with distinct addresses, to that
      administrator and to no one else. */
  lemma NoticePerListedAdmin(admins: seq<User>, emisor: Email, reportId: nat, pubId: nat, ns: seq<Notificacion>)
    requires UniqueCorreos(admins)
    requires ns == AdminNotices(admins, emisor, reportId, pubId)
    ensures forall n :: n in ns ==> n.kind == ReportNotice && !n.isRead && n.emisor == emisor && n.resourceId == reportId
    ensures forall u :: u in admins ==> exists k :: 0 <= k < |ns| && ns[k].receptor == u.correo
    ensures forall k :: 0 <= k < |ns| ==> exists u :: u in admins && u.correo == ns[k].receptor
    ensures forall j, k :: 0 <= j < k < |ns| ==> ns[j].receptor != ns[k].receptor
  {
    NoticesAreReports(admins, emisor, reportId, pubId, ns);
    NoticesReachAdmins(admins, emisor, reportId, pubId, ns);
    NoticesDistinct(admins, emisor, reportId, pubId, ns);
  }

  lemma NoticesAreReports(admins: seq<User>, emisor: Email, reportId: nat, pubId: nat, ns: seq<Notificacion>)
    requires ns == AdminNotices(admins, emisor, reportId, pubId)
    ensures forall n :: n in ns ==> n.kind == ReportNotice && !n.isRead && n.emisor == emisor && n.resourceId == reportId
  {
    forall n | n in ns
      ensures n.kind == ReportNotice && !n.isRead && n.emisor == emisor && n.resourceId == reportId
    {
      var k :| 0 <= k < |ns| && ns[k] == n;
      assert n == AdminNotice(admins[k], emisor, reportId, pubId);
    }
  }

  lemma NoticesReachAdmins(admins: seq<User>, emisor: Email, reportId: nat, pubId: nat, ns: seq<Notificacion>)
    requires ns == AdminNotices(admins, emisor, reportId, pubId)
    ensures forall u :: u in admins ==> exists k :: 0 <= k < |ns| && ns[k].receptor == u.correo
    ensures forall k :: 0 <= k < |ns| ==> exists u :: u in admins && u.correo == ns[k].receptor
  {
    forall u | u in admins
      ensures exists k :: 0 <= k < |ns| && ns[k].receptor == u.correo
    {
      var k :| 0 <= k < |admins| && admins[k] == u;
      assert ns[k] == AdminNotice(admins[k], emisor, reportId, pubId);
    }
    forall k | 0 <= k < |ns|
      ensures exists u :: u in admins && u.correo == ns[k].receptor
    {
      assert ns[k] == AdminNotice(admins[k], emisor, reportId, pubId);
      assert admins[k] in admins;
    }
  }

  lemma NoticesDistinct(admins: seq<User>, emisor: Email, reportId: nat, pubId: nat, ns: seq<Notificacion>)
    requires UniqueCorreos(admins)
    requires ns == AdminNotices(admins, emisor, reportId, pubId)
    ensures forall j, k :: 0 <= j < k < |ns| ==> ns[j].receptor != ns[k].receptor
  {
    forall j, k | 0 <= j < k < |ns|
      ensures ns[j].receptor != ns[k].receptor
    {
      assert ns[j] == AdminNotice(admins[j], emisor, reportId, pubId);
      assert ns[k] == AdminNotice(admins[k], emisor, reportId, pubId);
    }
  }

  /** Every administrator receives exactly one REPORT notification about the new report,
      and nobody else receives one. */
  lemma OneNoticePerAdmin(users: seq<User>, emisor: Email, reportId: nat, pubId: nat, ns: seq<Notificacion>)
    requires UniqueCorreos(users)
    requires ns == AdminNotices(Admins(users), emisor, reportId, pubId)
    ensures forall n :: n in ns ==> n.kind == ReportNotice && !n.isRead && n.emisor == emisor && n.resourceId == reportId
    ensures forall u :: u in users && u.role == RoleAdmin ==> exists k :: 0 <= k < |ns| && ns[k].receptor == u.correo
    ensures forall k :: 0 <= k < |ns| ==> exists u :: u in users && u.role == RoleAdmin && u.correo == ns[k].receptor
    ensures forall j, k :: 0 <= j < k < |ns| ==> ns[j].receptor != ns[k].receptor
  {
    var admins := Admins(users);
    NoticePerListedAdmin(admins, emisor, reportId, pubId, ns);
    forall k | 0 <= k < |ns|
      ensures exists u :: u in users && u.role == RoleAdmin && u.correo == ns[k].receptor
    {
      var u :| u in admins && u.correo == ns[k].receptor;
    }
  }

  /** The notices and pushes for the first `i + 1` administrators extend those for the
      first `i` by the ones for administrator `i`. */
  lemma AdminStep(admins: seq<User>, i: nat, emisor: Email, reportId: nat, pubId: nat,
                  ready: bool, data: NotificationData, now: int)
    requires i < |admins|
    ensures AdminNotices(admins[..i + 1], emisor, reportId, pubId) ==
      AdminNotices(admins[..i], emisor, reportId, pubId) + [AdminNotice(admins[i], emisor, reportId, pubId)]
    ensures AdminEmits(ready, admins[..i + 1], data, now) ==
      AdminEmits(ready, admins[..i], data, now) + Notified(ready, admins[i].correo, data, now)
  {
    assert admins[..i + 1][..i] == admins[..i];
  }

  /** Every administrator is pushed the notification once when the notifier is set. */
  lemma {:induction false} AdminEmitsOnePerAdmin(ready: bool, admins: seq<User>, data: NotificationData, now: int)
    ensures |AdminEmits(ready, admins, data, now)| == if ready then |admins| else 0
    ensures ready ==> forall i :: 0 <= i < |admins| ==>
      AdminEmits(ready, admins, data, now)[i] == NotificationEmit(admins[i].correo, data, now)
  {
    if admins != [] {
      AdminEmitsOnePerAdmin(ready, admins[..|admins| - 1], data, now);
    }
  }

  /** The loop over the administrators: stores and pushes one notification each. */
  method NotifyAdmins(outbox: Outbox, admins: seq<User>, emisor: User, reportId: nat, pubId: nat, now: int)
    returns (stored: seq<Notificacion>)
    modifies outbox
    ensures stored == AdminNotices(admins, emisor.correo, reportId, pubId)
    ensures outbox.ioReady == old(outbox.ioReady)
    ensures outbox.sent == old(outbox.sent) + AdminEmits(old(outbox.ioReady), admins, ReportData(emisor, reportId, pubId), now)
  {
    var data := ReportData(emisor, reportId, pubId);
    stored := [];
    var i := 0;
    while i < |admins|
      invariant 0 <= i <= |admins|
      invariant stored == AdminNotices(admins[..i], emisor.correo, reportId, pubId)
      invariant outbox.ioReady == old(outbox.ioReady)
      invariant outbox.sent == old(outbox.sent) + AdminEmits(old(outbox.ioReady), admins[..i], data, now)
    {
      AdminStep(admins, i, emisor.correo, reportId, pubId, old(outbox.ioReady), data, now);
      stored := stored + [AdminNotice(admins[i], emisor.correo, reportId, pubId)];
      outbox.NotifyUser(admins[i].correo, data, now);
      i := i + 1;
    }
    assert admins[..|admins|] == admins;
  }

  /** `findOne({ where: { id } })` on the report table: the index of the first report with that id. */
  function FindReport(reportes: seq<Reporte>, id: nat): (r: Option<nat>)
    ensures r.Some? ==> r.value < |reportes| && reportes[r.value].id == id
    ensures r.None? <==> forall rep :: rep in reportes ==> rep.id != id
  {
    if reportes == [] then None
    else if reportes[0].id == id then Some(0)
    else
      var rest := FindReport(reportes[1..], id);
      if rest.Some? then Some(rest.value + 1) else None
  }

  /** `Object.assign(existing, payload)`: only the fields present in the payload change;
      `entity_id` is not a column of the report, so only the description can. */
  function Merge(rep: Reporte, description: Option<string>): (m: Reporte)
    ensures m.id == rep.id && m.reporter == rep.reporter && m.publicacionId == rep.publicacionId
    ensures description.Some? ==> m.description == description.value
    ensures description.None? ==> m == rep
  {
    rep.(description := description.GetOr(rep.description))
  }

  /** What accepting a report did. */
  datatype BanOutcome = PublicationAlreadyGone | PublicationDeleted

  class ReporteController {
    var reportes: seq<Reporte>
    var histories: seq<History>
    var publications: seq<Publicacion>
    var users: seq<User>
    var notifications: seq<Notificacion>
    var nextId: nat
    const outbox: Outbox

    ghost predicate Valid()
      reads this
    {
      UniqueCorreos(users) &&
      OneReportPerPair(reportes) &&
      (forall rep :: rep in reportes ==> rep.id < nextId) &&
      (forall h :: h in histories ==> h.reporteId < nextId)
    }

    constructor(publications: seq<Publicacion>, users: seq<User>, outbox: Outbox)
      requires UniqueCorreos(users)
      ensures Valid()
      ensures this.publications == publications && this.users == users && this.outbox == outbox
      ensures reportes == [] && histories == [] && notifications == []
    {
      this.reportes := [];
      this.histories := [];
      this.publications := publications;
      this.users := users;
      this.notifications := [];
      this.nextId := 1;
      this.outbox := outbox;
    }

    /** `create({ description, entity_id }, caller)`. The report names its reporter by
        address, without a lookup, and is saved with its history entry before the reporter is
        looked up: for an address with no user row the save breaks the reporter's foreign key
        (500) and nothing is stored, so the 404 for a missing reporter is never reached. */
    method Create(description: string, entityId: nat, caller: Email, now: int) returns (r: Result<Reporte>)
      requires Valid()
      modifies this, outbox
      ensures Valid()
      ensures publications == old(publications) && users == old(users) && outbox.ioReady == old(outbox.ioReady)
      ensures var g := CreateGuard(old(publications), old(reportes), caller, entityId);
        if g.Some? then
          r == Err(g.value) && reportes == old(reportes) && histories == old(histories) &&
          notifications == old(notifications) && outbox.sent == old(outbox.sent)
        else
          var rep := Reporte(old(nextId), description, entityId, caller);
          match FindByCorreo(old(users), caller)
          case None =>
            r == Err(InternalError) && reportes == old(reportes) && histories == old(histories) &&
            notifications == old(notifications) && outbox.sent == old(outbox.sent)
          case Some(emisor) =>
            r == Ok(rep) &&
            reportes == old(reportes) + [rep] &&
            histories == old(histories) + [History(rep.id, HistoryText(caller, entityId, description))] &&
            notifications == old(notifications) + AdminNotices(Admins(old(users)), caller, rep.id, entityId) &&
            outbox.sent == old(outbox.sent) + AdminEmits(old(outbox.ioReady), Admins(old(users)), ReportData(emisor, rep.id, entityId), now)
    {
      var g := CreateGuard(publications, reportes, caller, entityId);
      if g.Some? {
        return Err(g.value);
      }
      var emisor := FindByCorreo(users, caller);
      if emisor.None? {
        return Err(InternalError);
      }
      var rep := Reporte(nextId, description, entityId, caller);
      Record(rep);
      var stored := NotifyAdmins(outbox, Admins(users), emisor.value, rep.id, entityId, now);
      notifications := notifications + stored;
      r := Ok(rep);
    }

    /** Saves an admitted report under the next id, with its history entry. */
    method Record(rep: Reporte)
      requires Valid() && rep.id == nextId
      requires CreateGuard(publications, reportes, rep.reporter, rep.publicacionId).None?
      modifies this
      ensures Valid()
      ensures reportes == old(reportes) + [rep] && nextId == old(nextId) + 1
      ensures histories == old(histories) + [History(rep.id, HistoryText(rep.reporter, rep.publicacionId, rep.description))]
      ensures publications == old(publications) && users == old(users) && notifications == old(notifications)
    {
      AdmittedReportKeepsOnePerPair(publications, reportes, rep);
      reportes := reportes + [rep];
      histories := histories + [History(rep.id, HistoryText(rep.reporter, rep.publicacionId, rep.description))];
      nextId := nextId + 1;
    }

    /** `getById(id)` (and `getAdminDetail(id)`, which loads more relations of the same row). */
    function GetById(id: nat): (r: Option<Reporte>)
      reads this
      ensures r.Some? ==> r.value in reportes && r.value.id == id
      ensures r.None? <==> forall rep :: rep in reportes ==> rep.id != id
    {
      var k := FindReport(reportes, id);
      if k.None? then None else Some(reportes[k.value])
    }

    /** `update(id, payload)`: null for an unknown id, otherwise the merged report. */
    method Update(id: nat, description: Option<string>) returns (r: Option<Reporte>)
      requires Valid()
      modifies this
      ensures Valid()
      ensures histories == old(histories) && publications == old(publications) && users == old(users)
      ensures notifications == old(notifications) && nextId == old(nextId)
      ensures var k := FindReport(old(reportes), id);
        if k.None? then r.None? && reportes == old(reportes)
        else r == Some(Merge(old(reportes)[k.value], description)) && reportes == old(reportes)[k.value := r.value]
    {
      var k := FindReport(reportes, id);
      if k.None? {
        return None;
      }
      var merged := Merge(reportes[k.value], description);
      reportes := reportes[k.value := merged];
      r := Some(merged);
    }

    /** Removes every report with id `id`. */
    method RemoveReport(id: nat)
      requires Valid()
      modifies this
      ensures Valid()
      ensures reportes == Filter(old(reportes), (rep: Reporte) => rep.id != id)
      ensures histories == old(histories) && publications == old(publications) && users == old(users)
      ensures notifications == old(notifications) && nextId == old(nextId)
    {
      FilterKeepsKeysDistinct(reportes, (rep: Reporte) => rep.id != id, PairOf);
      reportes := Filter(reportes, (rep: Reporte) => rep.id != id);
    }

    /** Removes the publication with id `pubId`. */
    method RemovePublication(pubId: nat)
      requires Valid()
      modifies this
      ensures Valid()
      ensures publications == Filter(old(publications), (p: Publicacion) => p.id != pubId)
      ensures reportes == old(reportes) && histories == old(histories) && users == old(users)
      ensures notifications == old(notifications) && nextId == old(nextId)
    {
      publications := Filter(publications, (p: Publicacion) => p.id != pubId);
    }

    /** `delete(id)`: the number of rows removed, which is 0 exactly when no report has that id. */
    method Delete(id: nat) returns (affected: nat)
      requires Valid()
      modifies this
      ensures Valid()
      ensures histories == old(histories) && publications == old(publications) && users == old(users)
      ensures notifications == old(notifications) && nextId == old(nextId)
      ensures reportes == Filter(old(reportes), (rep: Reporte) => rep.id != id)
      ensures affected == |old(reportes)| - |reportes|
      ensures affected == 0 <==> FindReport(old(reportes), id).None?
    {
      FilterDropsIff(reportes, (rep: Reporte) => rep.id != id);
      var before := |reportes|;
      RemoveReport(id);
      affected := before - |reportes|;
    }

    /** `banPublication(reporteId)`: 404 for an unknown report; otherwise the report is
        deleted, and so is its publication when it still exists. */
    method BanPublication(reporteId: nat) returns (r: Result<BanOutcome>)
      requires Valid()
      modifies this
      ensures Valid()
      ensures histories == old(histories) && users == old(users)
      ensures notifications == old(notifications) && nextId == old(nextId)
      ensures match FindReport(old(reportes), reporteId)
        case None => r == Err(NotFound) && reportes == old(reportes) && publications == old(publications)
        case Some(k) =>
          var pubId := old(reportes)[k].publicacionId;
          reportes == Filter(old(reportes), (rep: Reporte) => rep.id != reporteId) &&
          if FindPublication(old(publications), pubId).None? then
            r == Ok(PublicationAlreadyGone) && publications == old(publications)
          else
            r == Ok(PublicationDeleted) && publications == Filter(old(publications), (p: Publicacion) => p.id != pubId)
    {
      var k := FindReport(reportes, reporteId);
      if k.None? {
        return Err(NotFound);
      }
      var pubId := reportes[k.value].publicacionId;
      RemoveReport(reporteId);
      if FindPublication(publications, pubId).None? {
        return Ok(PublicationAlreadyGone);
      }
      RemovePublication(pubId);
      r := Ok(PublicationDeleted);
    }
  }
}
