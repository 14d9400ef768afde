/**
 * The buyer-profile endpoint: GET reads the signed-in user's profile, POST
 * validates the submitted form in a fixed order and saves the profile.
 */
module BuyerProfileApi {
  import opened Wrappers
  import opened Schema
  import opened Text
  import opened BuyerProfiles
  import opened Requests

  /** An uploaded file as the form reports it. */
  datatype Upload = Upload(size: int, mimeType: string)

  /** The submitted form; a field the form does not carry is `None`. */
  datatype ProfileForm = ProfileForm(
    equityBand: Option<string>,
    timeline: Option<string>,
    purpose: Option<string>,
    schufaAvailable: Option<string>,
    consentGiven: Option<string>,
    householdSize: Option<string>,
    financingDoc: Option<Upload>)

  /** What the handler answers: an error with its status, the profile read (200), or the profile saved (200). */
  datatype ApiResponse =
    | ErrorResponse(status: int, error: string)
    | ProfileBody(profile: Option<BuyerProfile>)
    | Saved(saved: BuyerProfile, message: string)

  const MaxUploadSize: int := 5 * 1024 * 1024
  const AllowedTypes: seq<string> := ["application/pdf", "image/jpeg", "image/jpg", "image/png"]

  /** A file counts only when it is present and not empty. */
  predicate HasFile(f: ProfileForm) {
    f.financingDoc.Some? && f.financingDoc.value.size > 0
  }

  /**
   * The checks of `POST`, in their order: the session, the required fields
   * and the consent, the three enumerations, then the file's size and type.
   * The first that fails gives the response.
   */
  function PostRefusal(session: Option<User>, f: ProfileForm): (r: Option<ApiResponse>)
    ensures r.Some? ==> r.value.ErrorResponse?
  {
    if !SignedIn(session) then Some(ErrorResponse(401, "Unauthorized"))
    else if !Given(f.equityBand) || !Given(f.timeline) || !Given(f.purpose) || f.consentGiven != Some("true") then
      Some(ErrorResponse(400, "Missing required fields"))
    else if ParseEquityBand(f.equityBand.value).None? then Some(ErrorResponse(400, "Invalid equity band"))
    else if ParseTimeline(f.timeline.value).None? then Some(ErrorResponse(400, "Invalid timeline"))
    else if ParsePurpose(f.purpose.value).None? then Some(ErrorResponse(400, "Invalid purpose"))
    else if HasFile(f) && f.financingDoc.value.size > MaxUploadSize then
      Some(ErrorResponse(400, "File size too large. Maximum 5MB allowed."))
    else if HasFile(f) && f.financingDoc.value.mimeType !in AllowedTypes then
      Some(ErrorResponse(400, "Invalid file type. Only PDF, JPG, and PNG files are allowed."))
    else None
  }

  /**
   * A form is accepted exactly when the user is signed in, consented, named
   * a valid equity band, timeline and purpose, and sent no file or a
   * non-empty file of at most 5 MiB of an allowed type. Every refusal but
   * the missing session is a 400.
   */
  lemma PostRefusalSpec(session: Option<User>, f: ProfileForm)
    ensures var r := PostRefusal(session, f);
      && (r.None? <==>
          SignedIn(session) && f.consentGiven == Some("true") &&
          f.equityBand.Some? && ParseEquityBand(f.equityBand.value).Some? &&
          f.timeline.Some? && ParseTimeline(f.timeline.value).Some? &&
          f.purpose.Some? && ParsePurpose(f.purpose.value).Some? &&
          (HasFile(f) ==> f.financingDoc.value.size <= MaxUploadSize && f.financingDoc.value.mimeType in AllowedTypes))
      && (r.Some? && r.value.status == 401 <==> !SignedIn(session))
      && (r.Some? && SignedIn(session) ==> r.value.status == 400)
  {
    if f.equityBand.Some? && f.equityBand.value == "" {
      assert ParseEquityBand("").None?;
    }
    if f.timeline.Some? && f.timeline.value == "" {
      assert ParseTimeline("").None?;
    }
    if f.purpose.Some? && f.purpose.value == "" {
      assert ParsePurpose("").None?;
    }
  }

  /** An empty file is treated as no file at all. */
  lemma EmptyFileIgnored(session: Option<User>, f: ProfileForm, uploadedUrl: string)
    requires f.financingDoc.Some? && f.financingDoc.value.size == 0
    ensures PostRefusal(session, f) == PostRefusal(session, f.(financingDoc := None))
    ensures PostRefusal(session, f).None? ==>
      InputOf(f, uploadedUrl) == InputOf(f.(financingDoc := None), uploadedUrl)
  {
  }

  /** The file is checked for size before type: an oversized file of any type is refused as too large. */
  lemma SizeCheckedFirst(session: Option<User>, f: ProfileForm)
    requires SignedIn(session) && HasFile(f) && f.financingDoc.value.size > MaxUploadSize
    requires f.consentGiven == Some("true") && f.equityBand.Some? && f.timeline.Some? && f.purpose.Some?
    requires ParseEquityBand(f.equityBand.value).Some? && ParseTimeline(f.timeline.value).Some? && ParsePurpose(f.purpose.value).Some?
    ensures PostRefusal(session, f) == Some(ErrorResponse(400, "File size too large. Maximum 5MB allowed."))
  {
    assert f.equityBand.value != "" by { assert ParseEquityBand("").None?; }
    assert f.timeline.value != "" by { assert ParseTimeline("").None?; }
    assert f.purpose.value != "" by { assert ParsePurpose("").None?; }
  }

  /**
   * The service input built from an accepted form: the parsed enumerations,
   * `parseInt` of a non-empty household size, the Schufa flag only for the
   * text 'true', and the stored document's URL when a file came with it.
   */
  function InputOf(f: ProfileForm, uploadedUrl: string): ProfileInput
    requires f.equityBand.Some? && ParseEquityBand(f.equityBand.value).Some?
    requires f.timeline.Some? && ParseTimeline(f.timeline.value).Some?
    requires f.purpose.Some? && ParsePurpose(f.purpose.value).Some?
  {
    ProfileInput(
      ParseEquityBand(f.equityBand.value).value,
      ParseTimeline(f.timeline.value).value,
      ParsePurpose(f.purpose.value).value,
      if Given(f.householdSize) then JsParseInt(f.householdSize.value) else None,
      f.schufaAvailable == Some("true"),
      if HasFile(f) then Some(uploadedUrl) else None)
  }

  /** `GET`: 401 without a signed-in user, otherwise the user's profile or null. */
  method Get(session: Option<User>, service: BuyerProfileService, now: int) returns (r: ApiResponse)
    ensures !SignedIn(session) ==> r == ErrorResponse(401, "Unauthorized")
    ensures SignedIn(session) ==> r == ProfileBody(Profile(service.profiles, session.value.id, now))
    ensures SignedIn(session) ==> (r.profile.None? <==> forall k :: k in service.profiles ==> service.profiles[k].userId != session.value.id)
  {
    if !SignedIn(session) {
      return ErrorResponse(401, "Unauthorized");
    }
    var profile := service.GetProfile(session.value.id, now);
    r := ProfileBody(profile);
  }

  /**
   * `POST`: a refused form changes nothing; an accepted one is upserted for
   * the session user. `uploadedUrl` is where the document upload stores the file.
   */
  method Post(session: Option<User>, f: ProfileForm, service: BuyerProfileService, now: int, retentionUntil: int, uploadedUrl: string)
    returns (r: ApiResponse)
    requires service.Valid()
    modifies service
    ensures service.Valid()
    ensures PostRefusal(session, f).Some? ==> r == PostRefusal(session, f).value && service.profiles == old(service.profiles)
    ensures PostRefusal(session, f).None? ==>
      && r.Saved? && r.message == "Buyer profile saved successfully"
      && service.profiles == Upserted(old(service.profiles), old(service.nextId), session.value.id, InputOf(f, uploadedUrl), now, retentionUntil)
      && !r.saved.financingVerified && r.saved.userId == session.value.id
  {
    var refusal := PostRefusal(session, f);
    if refusal.Some? {
      return refusal.value;
    }
    PostRefusalSpec(session, f);
    var p := service.UpsertProfile(session.value.id, InputOf(f, uploadedUrl), now, retentionUntil);
    r := Saved(p, "Buyer profile saved successfully");
  }
}
