/** The mutating calls of `PortalSettingsRepository`: the report-signature update, whose
    camelCase payload is renamed into the API's snake_case body, and the paraf update and
    delete, which address one record by its id in the path. Only the requests are modelled;
    sending them is the `api` client's business. */
module PortalSettingsRepository {
  import opened Js

  const TtdLaporanUrl := "/api/portal/settings/ttd-lap"
  const ParafUrl := "/api/portal/settings/paraf"

  /** The display-only fields of one signature slot (`namaN`, `jabatanN`, `nikN`). */
  datatype SignerDisplay = SignerDisplay(nama: Option<string>, jabatan: Option<string>, nik: Option<string>)

  /** `UpdateTtdLaporanPayload`: four signature slots, each with a signer id (or null), a
      header and an `isIdN` flag, plus the display fields the form keeps for each slot. */
  datatype UpdateTtdLaporanPayload = UpdateTtdLaporanPayload(
    id1: Option<int>, id2: Option<int>, id3: Option<int>, id4: Option<int>,
    header1: string, header2: string, header3: string, header4: string,
    isId1: bool, isId2: bool, isId3: bool, isId4: bool,
    display1: SignerDisplay, display2: SignerDisplay, display3: SignerDisplay, display4: SignerDisplay)

  /** A JSON request body. */
  type Body = map<string, JsValue>

  /** The twelve keys of the signature update body. */
  const ApiKeys: set<string> := {
    "id1", "id2", "id3", "id4",
    "header1", "header2", "header3", "header4",
    "is_id_1", "is_id_2", "is_id_3", "is_id_4"}

  /** A signer id as JSON: the number, or `null`. */
  function IdValue(id: Option<int>): JsValue
  {
    if id.Some? then Num(id.value) else Null
  }

  /** `apiPayload` of `updateTtdLaporan`. */
  function ToApiBody(p: UpdateTtdLaporanPayload): (body: Body)
    ensures body.Keys == ApiKeys
  {
    map[
      "id1" := IdValue(p.id1), "id2" := IdValue(p.id2), "id3" := IdValue(p.id3), "id4" := IdValue(p.id4),
      "header1" := Str(p.header1), "header2" := Str(p.header2), "header3" := Str(p.header3), "header4" := Str(p.header4),
      "is_id_1" := Bool(p.isId1), "is_id_2" := Bool(p.isId2), "is_id_3" := Bool(p.isId3), "is_id_4" := Bool(p.isId4)]
  }

  // ---------------------------------------------------------------------------
  // Reading a body back, as the server does

  predicate IsIdValue(v: JsValue)
  {
    v.Num? || v.Null?
  }

  function IdOf(v: JsValue): Option<int>
  {
    if v.Num? then Some(v.n) else None
  }

  /** A body of exactly the twelve keys, each holding a value of its field's type. */
  predicate WellFormed(body: Body)
  {
    && body.Keys == ApiKeys
    && IsIdValue(body["id1"]) && IsIdValue(body["id2"]) && IsIdValue(body["id3"]) && IsIdValue(body["id4"])
    && body["header1"].Str? && body["header2"].Str? && body["header3"].Str? && body["header4"].Str?
    && body["is_id_1"].Bool? && body["is_id_2"].Bool? && body["is_id_3"].Bool? && body["is_id_4"].Bool?
  }

  const NoDisplay := SignerDisplay(None, None, None)

  /** The payload a body carries; the display fields are not in any body. */
  function FromApiBody(body: Body): Option<UpdateTtdLaporanPayload>
  {
    if WellFormed(body) then
      Some(UpdateTtdLaporanPayload(
        IdOf(body["id1"]), IdOf(body["id2"]), IdOf(body["id3"]), IdOf(body["id4"]),
        body["header1"].s, body["header2"].s, body["header3"].s, body["header4"].s,
        body["is_id_1"].b, body["is_id_2"].b, body["is_id_3"].b, body["is_id_4"].b,
        NoDisplay, NoDisplay, NoDisplay, NoDisplay))
    else None
  }

  /** The payload without its display fields: what a body can carry. */
  function WithoutDisplay(p: UpdateTtdLaporanPayload): UpdateTtdLaporanPayload
  {
    p.(display1 := NoDisplay, display2 := NoDisplay, display3 := NoDisplay, display4 := NoDisplay)
  }

  // ---------------------------------------------------------------------------
  // Requests

  datatype Verb = Put | Delete

  /** An HTTP request as the repository hands it to `api`. */
  datatype HttpRequest = HttpRequest(verb: Verb, path: string, body: Option<Body>)

  /** `${TTD_LAPORAN_URL}/${id}` for the string id the settings page passes. */
  function TtdLaporanPath(id: string): (path: string)
    ensures |path| == |TtdLaporanUrl| + 1 + |id|
    ensures path[..|TtdLaporanUrl| + 1] == TtdLaporanUrl + "/" && path[|TtdLaporanUrl| + 1..] == id
  {
    TtdLaporanUrl + "/" + id
  }

  /** `${PARAF_URL}/${id}` for a numeric id, which the template writes in decimal. */
  function ParafPath(id: int): (path: string)
    ensures |path| > |ParafUrl| + 1 && path[..|ParafUrl| + 1] == ParafUrl + "/"
    ensures path[|ParafUrl| + 1..] == IntToDecimal(id)
    ensures StringToNumber(path[|ParafUrl| + 1..]) == Integer(id)
  {
    var path := ParafUrl + "/" + IntToDecimal(id);
    assert path[|ParafUrl| + 1..] == IntToDecimal(id);
    DecimalStringToNumber(id);
    path
  }

  /** `updateTtdLaporan(id, payload)`. */
  function UpdateTtdLaporan(id: string, payload: UpdateTtdLaporanPayload): (r: HttpRequest)
    ensures r.verb == Put && r.path == TtdLaporanPath(id)
    ensures r.body.Some? && FromApiBody(r.body.value) == Some(WithoutDisplay(payload))
  {
    var body := ToApiBody(payload);
    assert WellFormed(body);
    HttpRequest(Put, TtdLaporanPath(id), Some(body))
  }

  /** The body of a paraf create or update: `{nama, jabatan, nik}` as given. */
  datatype ParafPayload = ParafPayload(nama: string, jabatan: string, nik: string)

  function ParafBody(p: ParafPayload): Body
  {
    map["nama" := Str(p.nama), "jabatan" := Str(p.jabatan), "nik" := Str(p.nik)]
  }

  /** `updateParaf(id, payload)`. */
  function UpdateParaf(id: int, payload: ParafPayload): (r: HttpRequest)
    ensures r.verb == Put && r.path == ParafPath(id) && r.body == Some(ParafBody(payload))
  {
    HttpRequest(Put, ParafPath(id), Some(ParafBody(payload)))
  }

  /** `deleteParaf(id)`. */
  function DeleteParaf(id: int): (r: HttpRequest)
    ensures r.verb == Delete && r.path == ParafPath(id) && r.body.None?
  {
    HttpRequest(Delete, ParafPath(id), None)
  }

  // ---------------------------------------------------------------------------
  // Properties

  /** Every body the server accepts is the image of exactly one display-free payload:
      turning it into a payload and back gives the same body. */
  lemma BodyRoundTrip(body: Body)
    requires WellFormed(body)
    ensures FromApiBody(body).Some? && ToApiBody(FromApiBody(body).value) == body
  {
    var p := FromApiBody(body).value;
    var b := ToApiBody(p);
    forall k | k in ApiKeys
      ensures b[k] == body[k]
    {
    }
  }

  /** The display fields are never sent: payloads that differ only in them give the same
      request. */
  lemma DisplayFieldsNotSent(id: string, p: UpdateTtdLaporanPayload, q: UpdateTtdLaporanPayload)
    requires WithoutDisplay(p) == WithoutDisplay(q)
    ensures UpdateTtdLaporan(id, p) == UpdateTtdLaporan(id, q)
  {
    assert p.id1 == WithoutDisplay(p).id1 && p.isId4 == WithoutDisplay(p).isId4;
    assert q.id1 == WithoutDisplay(q).id1 && q.isId4 == WithoutDisplay(q).isId4;
  }

  /** An update and a delete of the same paraf address the same record, and different ids
      address different records. */
  lemma ParafPathsIdentifyRecords(a: int, b: int, payload: ParafPayload)
    ensures UpdateParaf(a, payload).path == DeleteParaf(a).path
    ensures a != b ==> ParafPath(a) != ParafPath(b)
  {
    if ParafPath(a) == ParafPath(b) {
      assert StringToNumber(ParafPath(a)[|ParafUrl| + 1..]) == StringToNumber(ParafPath(b)[|ParafUrl| + 1..]);
    }
  }
}
