/**
 * `POST /api/customers/media`: a customer document given either as an
 * uploaded file (multipart) or as a URL (JSON) is forwarded to the pharmacy
 * and, when the pharmacy accepts it, recorded in `customer_media_documents`.
 */
module CustomerMedia {
  import opened Wrappers
  import opened Text
  import opened Tables
  import opened WebhookTypes
  import opened Multipart

  /** What the handler reads from the request. */
  datatype MediaRequest = MediaRequest(
    apiKey: Option<string>,       // `x-api-key` header
    contentType: Option<string>,  // `content-type` header
    rawBody: string,              // the raw body, read when it is multipart
    bodyEmail: Option<string>,    // `req.body.email` of a JSON body
    bodyUrl: Option<string>)      // `req.body.url` of a JSON body

  /** The service's pharmacy API key and default tenant. */
  datatype MediaConfig = MediaConfig(pharmacyApiKey: string, tenantDefault: string)

  /** The email, URL and file the handler works with after reading the body. */
  datatype UploadInput = UploadInput(email: string, url: Option<string>, file: Option<UploadedFile>)

  /** The call made to the pharmacy's media endpoint. */
  datatype MediaCall = UploadFile(email: string, file: UploadedFile) | LinkUrl(email: string, url: string)

  /** The `document` of the pharmacy's reply; a body that is not JSON has none. */
  datatype MediaDocument = MediaDocument(id: Option<string>, url: Option<string>, description: Option<string>, uploadedAt: Option<string>)

  /** How the pharmacy call ends: a reply, or a thrown network error. */
  datatype PharmacyMediaReply =
    | MediaReplied(status: int, message: Option<string>, document: Option<MediaDocument>)
    | MediaThrew(reason: string)

  datatype DocumentView = DocumentView(id: string, url: string, description: string, uploadedAt: string)

  /** The status and JSON body answered; a thrown error is answered with 500. */
  datatype MediaResponse = MediaResponse(status: int, message: string, document: Option<DocumentView>)

  /** A row of `customer_media_documents`. */
  datatype MediaRow = MediaRow(
    documentId: string,
    tenantId: string,
    memberId: int,
    email: string,
    url: string,
    description: string,
    sourceType: string)

  /** One request: the answer, the pharmacy call made (if any) and the row inserted (if any). */
  datatype UploadOutcome = UploadOutcome(response: MediaResponse, call: Option<MediaCall>, stored: Option<MediaRow>)

  /** A header's text, or the empty string when it is absent or empty. */
  function HeaderText(h: Option<string>): (t: string)
    ensures Truthy(h) ==> t == h.value
    ensures !Truthy(h) ==> t == ""
  {
    if Truthy(h) then h.value else ""
  }

  /** A parsed field's value, or the empty string when the field is absent. */
  function FieldOrEmpty(fields: map<string, string>, name: string): (t: string)
    ensures name in fields ==> t == fields[name]
    ensures name !in fields ==> t == ""
  {
    if name in fields then fields[name] else ""
  }

  /** The email, URL and file of a parsed multipart body. */
  function InputOf(parsed: ParsedMultipart): (input: UploadInput)
    ensures input.email == Trim(FieldOrEmpty(parsed.fields, "email"))
    ensures input.url.Some? <==> FieldOrEmpty(parsed.fields, "url") != ""
    ensures input.url.Some? ==> input.url.value == Trim(input.url.value) == Trim(parsed.fields["url"])
    ensures input.file == parsed.file
  {
    var email := FieldOrEmpty(parsed.fields, "email");
    var url := FieldOrEmpty(parsed.fields, "url");
    TrimIdempotent(email);
    TrimIdempotent(url);
    UploadInput(Trim(email), if url != "" then Some(Trim(url)) else None, parsed.file)
  }

  const InvalidBoundary := HttpError(400, "Invalid multipart boundary")

  /**
   * The body-reading half of the handler. `boundarySource` is the text the
   * boundary is read from: the lower-cased Content-Type in the service,
   * the header as sent in the corrected handler.
   */
  function ReadInput(req: MediaRequest, boundarySource: string): (r: Result<UploadInput>)
    ensures r.Err? ==> r.error == InvalidBoundary
    ensures r.Ok? ==> r.value.url.Some? ==> r.value.url.value == Trim(r.value.url.value)
    ensures r.Ok? ==> r.value.email == Trim(r.value.email)
    ensures !Contains(ToLowerAscii(HeaderText(req.contentType)), "multipart/form-data") ==> r.Ok? && r.value.file.None?
    ensures Contains(ToLowerAscii(HeaderText(req.contentType)), "multipart/form-data") ==>
      (r.Err? <==> !Truthy(GetBoundary(boundarySource)))
    ensures Contains(ToLowerAscii(HeaderText(req.contentType)), "multipart/form-data") && Truthy(GetBoundary(boundarySource)) ==>
      r == Ok(InputOf(ParseMultipart(req.rawBody, GetBoundary(boundarySource).value)))
    ensures !Contains(ToLowerAscii(HeaderText(req.contentType)), "multipart/form-data") ==>
      && r.Ok?
      && r.value.email == Trim(if Truthy(req.bodyEmail) then req.bodyEmail.value else "")
      && (r.value.url.Some? <==> Truthy(req.bodyUrl))
      && (Truthy(req.bodyUrl) ==> r.value.url.value == Trim(req.bodyUrl.value))
  {
    var contentType := ToLowerAscii(HeaderText(req.contentType));
    if Contains(contentType, "multipart/form-data") then
      var boundary := GetBoundary(boundarySource);
      if !Truthy(boundary) then Err(InvalidBoundary)
      else
        Ok(InputOf(ParseMultipart(req.rawBody, boundary.value)))
    else
      var email := if Truthy(req.bodyEmail) then req.bodyEmail.value else "";
      TrimIdempotent(email);
      if Truthy(req.bodyUrl) then
        TrimIdempotent(req.bodyUrl.value);
        Ok(UploadInput(Trim(email), Some(Trim(req.bodyUrl.value)), None))
      else Ok(UploadInput(Trim(email), None, None))
  }

  /** The three request checks: an email, and exactly one of a file and a URL. */
  function CheckInput(input: UploadInput): (e: Option<HttpError>)
    ensures e.Some? ==> e.value.status == 400
    ensures e.None? <==> input.email != "" && (input.file.Some? <==> !Truthy(input.url))
    ensures input.email == "" ==> e == Some(HttpError(400, "Customer email is required"))
  {
    if input.email == "" then Some(HttpError(400, "Customer email is required"))
    else if input.file.None? && !Truthy(input.url) then Some(HttpError(400, "Either file or url is required"))
    else if input.file.Some? && Truthy(input.url) then Some(HttpError(400, "Provide either file or url, not both"))
    else None
  }

  /** The member lookup by tenant and email: the first matching row. */
  function FindMemberByEmail(members: seq<MemberRow>, tenantId: string, email: string): (r: Option<MemberRow>)
    ensures r.Some? ==> r.value in members && r.value.tenantId == tenantId && r.value.email == Some(email)
    ensures r.None? ==> forall m :: m in members ==> !(m.tenantId == tenantId && m.email == Some(email))
  {
    if members == [] then None
    else if members[0].tenantId == tenantId && members[0].email == Some(email) then Some(members[0])
    else FindMemberByEmail(members[1..], tenantId, email)
  }

  const NoDocument := MediaDocument(None, None, None, None)

  /** The URL recorded: the pharmacy's, else the request's, else empty; trimmed. */
  function FinalUrl(doc: MediaDocument, url: Option<string>): (u: string)
    ensures Truthy(doc.url) ==> u == Trim(doc.url.value)
    ensures !Truthy(doc.url) && Truthy(url) ==> u == Trim(url.value)
    ensures !Truthy(doc.url) && !Truthy(url) ==> u == ""
  {
    var v := OrTruthy(doc.url, url);
    Trim(if Truthy(v) then v.value else "")
  }

  /** The description recorded: the pharmacy's, else the file name for a file, else "Customer document". */
  function Description(doc: MediaDocument, file: Option<UploadedFile>): (d: string)
    ensures d != "" || (file.Some? && file.value.filename == "")
    ensures Truthy(doc.description) ==> d == doc.description.value
    ensures !Truthy(doc.description) && file.None? ==> d == "Customer document"
    ensures !Truthy(doc.description) && file.Some? ==> d == file.value.filename
  {
    if Truthy(doc.description) then doc.description.value
    else if file.Some? then file.value.filename
    else "Customer document"
  }

  /**
   * What the pharmacy's reply leads to for a validated input and a found
   * member: 404 and 400 pass its refusal on, a thrown error is a 500, and an
   * accepted upload is recorded and answered with 200.
   */
  function Forward(input: UploadInput, member: MemberRow, cfg: MediaConfig, call: MediaCall, reply: PharmacyMediaReply,
                   documentId: string, nowIso: string): (o: UploadOutcome)
    ensures o.call == Some(call)
    ensures o.stored.Some? <==> reply.MediaReplied? && IsOkStatus(reply.status) && reply.status != 404
    ensures reply.MediaReplied? && reply.status == 404 ==> o.response == MediaResponse(404, "Customer not found", None)
    ensures reply.MediaReplied? && reply.status != 404 && !IsOkStatus(reply.status) ==>
      o.response.status == 400 && o.response.message == (if Truthy(reply.message) then reply.message.value else "Failed to upload media")
    ensures reply.MediaThrew? ==> o.response.status == 500
    ensures o.stored.Some? ==>
      var doc := reply.document.GetOr(NoDocument);
      && o.response.status == 200
      && o.stored.value == MediaRow(documentId, cfg.tenantDefault, member.memberId, input.email,
                                    FinalUrl(doc, input.url), Description(doc, input.file),
                                    if input.file.Some? then "file" else "url")
      && o.response.document == Some(DocumentView(
           if Truthy(doc.id) then doc.id.value else documentId,
           o.stored.value.url, o.stored.value.description,
           if Truthy(doc.uploadedAt) then doc.uploadedAt.value else nowIso))
  {
    match reply
    case MediaThrew(reason) => UploadOutcome(MediaResponse(500, reason, None), Some(call), None)
    case MediaReplied(status, message, document) =>
      if status == 404 then UploadOutcome(MediaResponse(404, "Customer not found", None), Some(call), None)
      else if !IsOkStatus(status) then
        UploadOutcome(MediaResponse(400, if Truthy(message) then message.value else "Failed to upload media", None), Some(call), None)
      else
        var doc := document.GetOr(NoDocument);
        var finalUrl := FinalUrl(doc, input.url);
        var description := Description(doc, input.file);
        var row := MediaRow(documentId, cfg.tenantDefault, member.memberId, input.email, finalUrl, description,
                            if input.file.Some? then "file" else "url");
        var view := DocumentView(if Truthy(doc.id) then doc.id.value else documentId, finalUrl, description,
                                 if Truthy(doc.uploadedAt) then doc.uploadedAt.value else nowIso);
        UploadOutcome(MediaResponse(200, "Media uploaded successfully", Some(view)), Some(call), Some(row))
  }

  /** The handler once the key is accepted and the body read: validate, look the member up, forward. */
  function ServeInput(input: UploadInput, cfg: MediaConfig, members: seq<MemberRow>, pharmacy: MediaCall -> PharmacyMediaReply,
                      documentId: string, nowIso: string): (o: UploadOutcome)
    ensures o.response.status != 403
    ensures o.stored.Some? ==> o.call.Some? && o.response.status == 200
    ensures o.call.Some? ==>
      && CheckInput(input).None?
      && FindMemberByEmail(members, cfg.tenantDefault, input.email).Some?
      && o.call.value == (if input.file.Some? then UploadFile(input.email, input.file.value) else LinkUrl(input.email, input.url.value))
    ensures CheckInput(input).Some? ==>
      o.call.None? && o.response.status == 400 && o.response.message == CheckInput(input).value.message
    // a valid input whose email names no member of the tenant is answered 404 with no call
    ensures CheckInput(input).None? && FindMemberByEmail(members, cfg.tenantDefault, input.email).None? ==>
      o == UploadOutcome(MediaResponse(404, "Customer not found", None), None, None)
    // a valid input of a known member is forwarded, and the pharmacy's reply decides the answer
    ensures CheckInput(input).None? && FindMemberByEmail(members, cfg.tenantDefault, input.email).Some? ==>
      var call := if input.file.Some? then UploadFile(input.email, input.file.value) else LinkUrl(input.email, input.url.value);
      o == Forward(input, FindMemberByEmail(members, cfg.tenantDefault, input.email).value, cfg, call, pharmacy(call), documentId, nowIso)
  {
    match CheckInput(input)
    case Some(e) => UploadOutcome(MediaResponse(e.status, e.message, None), None, None)
    case None =>
      match FindMemberByEmail(members, cfg.tenantDefault, input.email)
      case None => UploadOutcome(MediaResponse(404, "Customer not found", None), None, None)
      case Some(member) =>
        var call := if input.file.Some? then UploadFile(input.email, input.file.value) else LinkUrl(input.email, input.url.value);
        Forward(input, member, cfg, call, pharmacy(call), documentId, nowIso)
  }

  /**
   * The handler, with the boundary read from `boundarySource`; `pharmacy` is
   * the pharmacy API, `documentId` the fresh UUID and `nowIso` the clock.
   */
  function ServeUpload(req: MediaRequest, cfg: MediaConfig, members: seq<MemberRow>, pharmacy: MediaCall -> PharmacyMediaReply,
                       documentId: string, nowIso: string, boundarySource: string): (o: UploadOutcome)
    // the key check comes first and guards everything else
    ensures o.response.status == 403 <==> !Truthy(req.apiKey) || req.apiKey.value != cfg.pharmacyApiKey
    ensures o.response.status == 403 ==> o.call.None? && o.stored.None?
    // nothing is recorded without an accepted pharmacy call
    ensures o.stored.Some? ==> o.call.Some? && o.response.status == 200
    // a refused request makes no pharmacy call
    ensures o.call.Some? ==>
      && Truthy(req.apiKey) && req.apiKey.value == cfg.pharmacyApiKey
      && ReadInput(req, boundarySource).Ok?
      && var input := ReadInput(req, boundarySource).value;
         && CheckInput(input).None?
         && FindMemberByEmail(members, cfg.tenantDefault, input.email).Some?
         && o.call.value == (if input.file.Some? then UploadFile(input.email, input.file.value) else LinkUrl(input.email, input.url.value))
    ensures Truthy(req.apiKey) && req.apiKey.value == cfg.pharmacyApiKey && ReadInput(req, boundarySource).Ok?
            && CheckInput(ReadInput(req, boundarySource).value).Some? ==>
      o.call.None? && o.response.status == 400 && o.response.message == CheckInput(ReadInput(req, boundarySource).value).value.message
    // with the key accepted, an unreadable boundary is answered 400 and a readable body is served
    ensures Truthy(req.apiKey) && req.apiKey.value == cfg.pharmacyApiKey && ReadInput(req, boundarySource).Err? ==>
      o == UploadOutcome(MediaResponse(400, "Invalid multipart boundary", None), None, None)
    ensures Truthy(req.apiKey) && req.apiKey.value == cfg.pharmacyApiKey && ReadInput(req, boundarySource).Ok? ==>
      o == ServeInput(ReadInput(req, boundarySource).value, cfg, members, pharmacy, documentId, nowIso)
  {
    if !Truthy(req.apiKey) || req.apiKey.value != cfg.pharmacyApiKey then
      UploadOutcome(MediaResponse(403, "forbidden", None), None, None)
    else match ReadInput(req, boundarySource)
      case Err(e) => UploadOutcome(MediaResponse(e.status, e.message, None), None, None)
      case Ok(input) => ServeInput(input, cfg, members, pharmacy, documentId, nowIso)
  }

  /** The handler as the service has it: the boundary comes from the lower-cased Content-Type. */
  function HandleMediaUploadAsWritten(req: MediaRequest, cfg: MediaConfig, members: seq<MemberRow>, pharmacy: MediaCall -> PharmacyMediaReply,
                                      documentId: string, nowIso: string): UploadOutcome
  {
    ServeUpload(req, cfg, members, pharmacy, documentId, nowIso, ToLowerAscii(HeaderText(req.contentType)))
  }

  /** The handler with the boundary read from the Content-Type as sent. */
  function HandleMediaUpload(req: MediaRequest, cfg: MediaConfig, members: seq<MemberRow>, pharmacy: MediaCall -> PharmacyMediaReply,
                             documentId: string, nowIso: string): UploadOutcome
  {
    ServeUpload(req, cfg, members, pharmacy, documentId, nowIso, HeaderText(req.contentType))
  }

  /**
   * A recorded document came from exactly one source, and `source_type`
   * names it: "file" exactly when a file was uploaded.
   */
  lemma RecordedSourceIsExclusive(req: MediaRequest, cfg: MediaConfig, members: seq<MemberRow>, pharmacy: MediaCall -> PharmacyMediaReply,
                                  documentId: string, nowIso: string, boundarySource: string)
    requires ServeUpload(req, cfg, members, pharmacy, documentId, nowIso, boundarySource).stored.Some?
    ensures var input := ReadInput(req, boundarySource).value;
      var row := ServeUpload(req, cfg, members, pharmacy, documentId, nowIso, boundarySource).stored.value;
      && (input.file.Some? <==> !Truthy(input.url))
      && (row.sourceType == "file" <==> input.file.Some?)
      && (row.sourceType == "url" <==> Truthy(input.url))
      && row.email != "" && row.email == input.email
  {
  }

  /** The recorded URL is the pharmacy's URL when it gives one, else the request's, else empty. */
  lemma RecordedUrlPrefersPharmacy(req: MediaRequest, cfg: MediaConfig, members: seq<MemberRow>, pharmacy: MediaCall -> PharmacyMediaReply,
                                   documentId: string, nowIso: string, boundarySource: string)
    requires ServeUpload(req, cfg, members, pharmacy, documentId, nowIso, boundarySource).stored.Some?
    ensures var o := ServeUpload(req, cfg, members, pharmacy, documentId, nowIso, boundarySource);
      var input := ReadInput(req, boundarySource).value;
      var doc := pharmacy(o.call.value).document.GetOr(NoDocument);
      && (Truthy(doc.url) ==> o.stored.value.url == Trim(doc.url.value))
      && (!Truthy(doc.url) && input.file.None? ==> o.stored.value.url == input.url.value)
      && (!Truthy(doc.url) && input.file.Some? ==> o.stored.value.url == "")
  {
  }

  // ---- the boundary is read from the lower-cased Content-Type ----

  /** A boundary a client may declare, unquoted, after `boundary=`. */
  predicate PlainBoundary(b: string) {
    && b != [] && ';' !in b
    && !IsJsSpace(b[0]) && !IsJsSpace(b[|b| - 1])
    && b[0] != '"' && b[|b| - 1] != '"'
  }

  const MultipartPrefix: string := "multipart/form-data; boundary="

  lemma FirstSomeAt<T>(ms: seq<Option<T>>, p: nat, q: nat)
    requires p <= q < |ms| && ms[q].Some?
    requires forall i :: p <= i < q ==> ms[i].None?
    ensures FirstSome(ms, p) == Some(q)
    decreases q - p
  {
    if p < q {
      FirstSomeAt(ms, p + 1, q);
    }
  }

  lemma TrimKeepsPlain(b: string)
    requires b != [] && !IsJsSpace(b[0]) && !IsJsSpace(b[|b| - 1])
    ensures Trim(b) == b
  {
    assert TrimStart(b) == b;
    assert TrimEnd(b) == b;
  }

  /** No `boundary=` starts inside `multipart/form-data; `: no `=` falls where it would have to. */
  lemma NoBoundaryInPrefix(b: string)
    ensures forall q :: 0 <= q < 21 ==> MatchAt(BoundaryParam, MultipartPrefix + b, q).None?
  {
    var s := MultipartPrefix + b;
    forall q | 0 <= q < 21
      ensures MatchAt(BoundaryParam, s, q).None?
    {
      assert s[q + 8] == MultipartPrefix[q + 8];
      assert LowerChar(s[q + 8]) != '=';
      assert ToLowerAscii(s[q..q + 9])[8] == LowerChar(s[q + 8]);
    }
  }

  /** The `boundary=` of the prefix captures the whole declared boundary. */
  lemma BoundaryAfterPrefix(b: string)
    requires b != [] && ';' !in b
    ensures MatchAt(BoundaryParam, MultipartPrefix + b, 21) == Some(b)
  {
    var s := MultipartPrefix + b;
    assert s[21..30] == "boundary=";
    assert ToLowerAscii(s[21..30]) == "boundary=";
    assert RunUntil(s, 30, ';') == |s| by {
      forall j | 30 <= j < |s| ensures s[j] != ';' {
        assert s[j] == b[j - 30];
      }
    }
    assert Literal(BoundaryParam) == "boundary=";
    assert CaseInsensitiveAt(s, 21, "boundary=");
    assert s[30..|s|] == b;
  }

  /** After `multipart/form-data; boundary=`, `getBoundary` reads the whole rest, trimmed and unquoted. */
  lemma GetBoundaryAfterPrefix(v: string)
    requires v != [] && ';' !in v
    ensures GetBoundary(MultipartPrefix + v) == Some(StripQuotes(Trim(v)))
  {
    var s := MultipartPrefix + v;
    var ms := Captures(BoundaryParam, s);
    NoBoundaryInPrefix(v);
    BoundaryAfterPrefix(v);
    FirstSomeAt(ms, 0, 21);
    assert FirstMatch(BoundaryParam, s) == Some(v);
  }

  /** `getBoundary` reads back the boundary of `multipart/form-data; boundary=<b>`. */
  lemma GetBoundaryReadsDeclared(b: string)
    requires PlainBoundary(b)
    ensures GetBoundary(MultipartPrefix + b) == Some(b)
  {
    GetBoundaryAfterPrefix(b);
    TrimKeepsPlain(b);
    assert StripQuotes(b) == b;
  }

  /** `b` between two copies of `c`. */
  function Wrapped(b: string, c: char): (v: string)
    ensures |v| == |b| + 2 && v[0] == c && v[|v| - 1] == c
    ensures forall j :: 0 < j < |v| - 1 ==> v[j] == b[j - 1]
  {
    [c] + b + [c]
  }

  lemma WrappedHasNoSemicolon(b: string, c: char)
    requires ';' !in b && c != ';'
    ensures ';' !in Wrapped(b, c)
  {
    var v := Wrapped(b, c);
    forall j | 0 <= j < |v| ensures v[j] != ';' {
      if 0 < j < |v| - 1 {
        assert b[j - 1] in b;
      }
    }
  }

  lemma UnquoteWrapped(b: string)
    ensures StripQuotes(Trim(Wrapped(b, '"'))) == b
  {
    var v := Wrapped(b, '"');
    TrimKeepsPlain(v);
    assert v[1..][..|v| - 2] == b;
  }

  lemma TrimPadded(b: string)
    requires PlainBoundary(b)
    ensures StripQuotes(Trim(Wrapped(b, ' '))) == b
  {
    var v := Wrapped(b, ' ');
    assert v[1] == b[0];
    assert SpaceRunEnd(v, 1) == 1;
    assert LeadingSpace(v) == 1;
    assert v[1..1 + |b|] == b;
    assert Trim(v) == b;
  }

  /** A quoted boundary, `boundary="<b>"`, is read back without its quotes. */
  lemma GetBoundaryReadsQuoted(b: string)
    requires ';' !in b
    ensures GetBoundary(MultipartPrefix + Wrapped(b, '"')) == Some(b)
  {
    WrappedHasNoSemicolon(b, '"');
    GetBoundaryAfterPrefix(Wrapped(b, '"'));
    UnquoteWrapped(b);
  }

  /** A boundary padded with spaces, `boundary= <b> `, is read back without them. */
  lemma GetBoundaryReadsPadded(b: string)
    requires PlainBoundary(b)
    ensures GetBoundary(MultipartPrefix + Wrapped(b, ' ')) == Some(b)
  {
    WrappedHasNoSemicolon(b, ' ');
    GetBoundaryAfterPrefix(Wrapped(b, ' '));
    TrimPadded(b);
  }

  /** Lower-casing the declared header lower-cases only the boundary. */
  lemma LowerCasedHeader(b: string)
    requires PlainBoundary(b)
    ensures ToLowerAscii(MultipartPrefix + b) == MultipartPrefix + ToLowerAscii(b)
    ensures PlainBoundary(ToLowerAscii(b))
  {
    var l := ToLowerAscii(MultipartPrefix + b);
    var r := MultipartPrefix + ToLowerAscii(b);
    forall i | 0 <= i < |l| ensures l[i] == r[i] {
      if i >= |MultipartPrefix| {
        assert (MultipartPrefix + b)[i] == b[i - |MultipartPrefix|];
      }
    }
    var lb := ToLowerAscii(b);
    assert ';' !in lb by {
      forall j | 0 <= j < |lb| ensures lb[j] != ';' {
        assert b[j] in b;
      }
    }
  }

  /** A multipart request whose Content-Type is exactly `multipart/form-data; boundary=<b>`. */
  predicate DeclaresBoundary(req: MediaRequest, b: string) {
    req.contentType == Some(MultipartPrefix + b)
  }

  lemma IsMultipart(b: string)
    ensures Contains(ToLowerAscii(MultipartPrefix + b), "multipart/form-data")
  {
    var s := ToLowerAscii(MultipartPrefix + b);
    assert s[0..19] == "multipart/form-data" by {
      forall i | 0 <= i < 19 ensures s[i] == "multipart/form-data"[i] {
        assert (MultipartPrefix + b)[i] == MultipartPrefix[i];
      }
    }
    assert OccursAt(s, "multipart/form-data", 0);
  }

  /** The service splits the body at `--` and the LOWER-CASED declared boundary. */
  lemma AsWrittenSplitsAtLowerCase(req: MediaRequest, b: string)
    requires PlainBoundary(b) && DeclaresBoundary(req, b)
    ensures ReadInput(req, ToLowerAscii(HeaderText(req.contentType))) == Ok(InputOf(ParseMultipart(req.rawBody, ToLowerAscii(b))))
  {
    LowerCasedHeader(b);
    GetBoundaryReadsDeclared(ToLowerAscii(b));
    IsMultipart(b);
    var source := ToLowerAscii(HeaderText(req.contentType));
    assert source == MultipartPrefix + ToLowerAscii(b);
    assert GetBoundary(source) == Some(ToLowerAscii(b));
  }

  /** Corrected: the body is split at `--` and the boundary exactly as declared. */
  lemma CorrectedSplitsAtDeclared(req: MediaRequest, b: string)
    requires PlainBoundary(b) && DeclaresBoundary(req, b)
    ensures ReadInput(req, HeaderText(req.contentType)) == Ok(InputOf(ParseMultipart(req.rawBody, b)))
  {
    GetBoundaryReadsDeclared(b);
    IsMultipart(b);
    assert HeaderText(req.contentType) == MultipartPrefix + b;
    assert GetBoundary(HeaderText(req.contentType)) == Some(b);
  }

  /** The service serves the body as split at the lower-cased boundary. */
  lemma AsWrittenHandlerSplitsAtLowerCase(req: MediaRequest, cfg: MediaConfig, members: seq<MemberRow>, pharmacy: MediaCall -> PharmacyMediaReply,
                                          documentId: string, nowIso: string, b: string)
    requires req.apiKey == Some(cfg.pharmacyApiKey) && cfg.pharmacyApiKey != ""
    requires PlainBoundary(b) && DeclaresBoundary(req, b)
    ensures HandleMediaUploadAsWritten(req, cfg, members, pharmacy, documentId, nowIso)
         == ServeInput(InputOf(ParseMultipart(req.rawBody, ToLowerAscii(b))), cfg, members, pharmacy, documentId, nowIso)
  {
    var source := ToLowerAscii(HeaderText(req.contentType));
    AsWrittenSplitsAtLowerCase(req, b);
    ServesReadInput(req, cfg, members, pharmacy, documentId, nowIso, source, InputOf(ParseMultipart(req.rawBody, ToLowerAscii(b))));
  }

  /** Corrected: the handler serves the body as split at the boundary exactly as declared. */
  lemma CorrectedHandlerSplitsAtDeclared(req: MediaRequest, cfg: MediaConfig, members: seq<MemberRow>, pharmacy: MediaCall -> PharmacyMediaReply,
                                         documentId: string, nowIso: string, b: string)
    requires req.apiKey == Some(cfg.pharmacyApiKey) && cfg.pharmacyApiKey != ""
    requires PlainBoundary(b) && DeclaresBoundary(req, b)
    ensures HandleMediaUpload(req, cfg, members, pharmacy, documentId, nowIso)
         == ServeInput(InputOf(ParseMultipart(req.rawBody, b)), cfg, members, pharmacy, documentId, nowIso)
  {
    var source := HeaderText(req.contentType);
    CorrectedSplitsAtDeclared(req, b);
    ServesReadInput(req, cfg, members, pharmacy, documentId, nowIso, source, InputOf(ParseMultipart(req.rawBody, b)));
  }

  /** With the key accepted, the upload serves whatever input the body reads as. */
  lemma ServesReadInput(req: MediaRequest, cfg: MediaConfig, members: seq<MemberRow>, pharmacy: MediaCall -> PharmacyMediaReply,
                        documentId: string, nowIso: string, source: string, input: UploadInput)
    requires req.apiKey == Some(cfg.pharmacyApiKey) && cfg.pharmacyApiKey != ""
    requires ReadInput(req, source) == Ok(input)
    ensures ServeUpload(req, cfg, members, pharmacy, documentId, nowIso, source)
         == ServeInput(input, cfg, members, pharmacy, documentId, nowIso)
  {
  }

  /** A body that lacks a character of the delimiter has no parts. */
  lemma NoDelimiterNoParts(body: string, delim: string, c: char)
    requires delim != [] && c in delim && c !in body
    ensures Segments(body, delim) == []
  {
  }

  lemma InDelimiter(b: string, c: char)
    requires c in b
    ensures c in "--" + b
  {
  }

  lemma MissingCharParsesNothing(body: string, boundary: string, c: char)
    requires c in boundary && c !in body
    ensures ParseMultipart(body, boundary) == ParsedMultipart(map[], None)
  {
    InDelimiter(boundary, c);
    NoDelimiterNoParts(body, "--" + boundary, c);
  }

  /** With no part found, the service reads an empty email and no URL or file. */
  lemma AsWrittenReadsNothing(req: MediaRequest, b: string, c: char)
    requires PlainBoundary(b) && DeclaresBoundary(req, b)
    requires c in ToLowerAscii(b) && c !in req.rawBody
    ensures ReadInput(req, ToLowerAscii(HeaderText(req.contentType))) == Ok(UploadInput("", None, None))
  {
    AsWrittenSplitsAtLowerCase(req, b);
    MissingCharParsesNothing(req.rawBody, ToLowerAscii(b), c);
    assert InputOf(ParsedMultipart(map[], None)) == UploadInput("", None, None);
  }

  /**
   * When the body lacks a character of the lower-cased delimiter, as a body
   * whose delimiters keep an upper-case boundary may, the service finds no
   * part at all and answers 400 "Customer email is required", whatever the
   * parts hold.
   */
  lemma LowerCasedBoundaryLosesParts(req: MediaRequest, cfg: MediaConfig, members: seq<MemberRow>, pharmacy: MediaCall -> PharmacyMediaReply,
                                     documentId: string, nowIso: string, b: string, c: char)
    requires req.apiKey == Some(cfg.pharmacyApiKey) && cfg.pharmacyApiKey != ""
    requires PlainBoundary(b) && DeclaresBoundary(req, b)
    requires c in ToLowerAscii(b) && c !in req.rawBody
    ensures HandleMediaUploadAsWritten(req, cfg, members, pharmacy, documentId, nowIso)
         == UploadOutcome(MediaResponse(400, "Customer email is required", None), None, None)
  {
    var source := ToLowerAscii(HeaderText(req.contentType));
    AsWrittenReadsNothing(req, b, c);
    var input := UploadInput("", None, None);
    assert ReadInput(req, source) == Ok(input);
    assert CheckInput(input) == Some(HttpError(400, "Customer email is required"));
    var refused := UploadOutcome(MediaResponse(400, "Customer email is required", None), None, None);
    assert ServeInput(input, cfg, members, pharmacy, documentId, nowIso) == refused;
    assert Truthy(req.apiKey) && req.apiKey.value == cfg.pharmacyApiKey;
    assert ServeUpload(req, cfg, members, pharmacy, documentId, nowIso, source) == refused;
  }

  /**
   * A browser-style upload with the mixed-case boundary `QZ`: the body's
   * delimiters are `--QZ`, the service looks for `--qz`, and the email field
   * the body carries is never read.
   */
  lemma MixedCaseBoundaryLosesEmail(cfg: MediaConfig, members: seq<MemberRow>, pharmacy: MediaCall -> PharmacyMediaReply,
                                    documentId: string, nowIso: string)
    requires cfg.pharmacyApiKey != ""
    ensures var body := "--QZ\r\n" + "Content-Disposition: " + "form-data; name=\"email\"" + "\r\n\r\n" + "x@y.z\r\n--QZ--\r\n";
      var req := MediaRequest(Some(cfg.pharmacyApiKey), Some(MultipartPrefix + "QZ"), body, None, None);
      HandleMediaUploadAsWritten(req, cfg, members, pharmacy, documentId, nowIso).response
        == MediaResponse(400, "Customer email is required", None)
  {
    var body := "--QZ\r\n" + "Content-Disposition: " + "form-data; name=\"email\"" + "\r\n\r\n" + "x@y.z\r\n--QZ--\r\n";
    var req := MediaRequest(Some(cfg.pharmacyApiKey), Some(MultipartPrefix + "QZ"), body, None, None);
    assert ToLowerAscii("QZ")[0] == 'q';
    assert 'q' !in "--QZ\r\n";
    assert 'q' !in "Content-Disposition: ";
    assert 'q' !in "form-data; name=\"email\"";
    assert 'q' !in "\r\n\r\n";
    assert 'q' !in "x@y.z\r\n--QZ--\r\n";
    LowerCasedBoundaryLosesParts(req, cfg, members, pharmacy, documentId, nowIso, "QZ", 'q');
  }
}
