/** The record schemas of `src/schemas.py`: the `DiscBase` and `CompanyBase` models
    (required fields, defaults, field validators) and the standalone validators of the
    tournament and player models. Constructing a model from keyword arguments is a
    function returning a `Result`: `Err` lists the fields pydantic reports, in
    declaration order. */
module Schemas {
  import opened Wrappers
  import opened Dates
  import opened PyValues
  import opened Coercion

  type Kwargs = map<string, Value>

  datatype ErrorKind = Missing | Invalid

  datatype FieldError = FieldError(field: string, kind: ErrorKind)

  // ---------------------------------------------------------------------------
  // Field rules shared by every model

  // Each rule takes the field's value already put through the field's type check
  // (`checked`, meaningful only when the field is present), so that the rules stay
  // first-order.

  /** A field declared without a default: absent is an error. */
  function Required<T>(kw: Kwargs, key: string, checked: Option<T>): (r: Result<T, FieldError>)
    ensures key !in kw ==> r == Err(FieldError(key, Missing))
    ensures key in kw ==> (r.Ok? <==> checked.Some?)
    ensures r.Ok? ==> key in kw && checked == Some(r.value)
  {
    if key !in kw then Err(FieldError(key, Missing))
    else if checked.Some? then Ok(checked.value)
    else Err(FieldError(key, Invalid))
  }

  /** A field with a default: the default is used, unvalidated, when the field is absent. */
  function Defaulted<T>(kw: Kwargs, key: string, default: T, checked: Option<T>): (r: Result<T, FieldError>)
    ensures key !in kw ==> r == Ok(default)
    ensures key in kw ==> (r.Ok? <==> checked.Some?)
    ensures key in kw && r.Ok? ==> checked == Some(r.value)
  {
    if key !in kw then Ok(default)
    else if checked.Some? then Ok(checked.value)
    else Err(FieldError(key, Invalid))
  }

  /** `x: T = None`: absent gives `None`; a value that is passed, `None` included, must be a `T`. */
  function DefaultNone<T>(kw: Kwargs, key: string, checked: Option<T>): (r: Result<Option<T>, FieldError>)
    ensures key !in kw ==> r == Ok(None)
    ensures key in kw ==> (r.Ok? <==> checked.Some?)
    ensures key in kw && r.Ok? ==> r.value == checked
  {
    if key !in kw then Ok(None)
    else if checked.Some? then Ok(checked)
    else Err(FieldError(key, Invalid))
  }

  /** `x: Optional[T] = None`: absent or `None` gives `None`; anything else must be a `T`. */
  function Nullable<T>(kw: Kwargs, key: string, checked: Option<T>): (r: Result<Option<T>, FieldError>)
    ensures key !in kw || kw[key] == PyNone ==> r == Ok(None)
    ensures key in kw && kw[key] != PyNone ==> (r.Ok? <==> checked.Some?)
    ensures key in kw && kw[key] != PyNone && r.Ok? ==> r.value == checked
  {
    if key !in kw || kw[key] == PyNone then Ok(None)
    else if checked.Some? then Ok(checked)
    else Err(FieldError(key, Invalid))
  }

  function StrAt(lib: Library, kw: Kwargs, key: string): (r: Option<string>) {
    if key in kw then StrField(lib, kw[key]) else None
  }

  function FloatAt(lib: Library, kw: Kwargs, key: string): (r: Option<real>) {
    if key in kw then FloatField(lib, kw[key]) else None
  }

  function BoolAt(lib: Library, kw: Kwargs, key: string): (r: Option<bool>) {
    if key in kw then BoolField(lib, kw[key]) else None
  }

  function UrlAt(lib: Library, kw: Kwargs, key: string): (r: Option<string>) {
    if key in kw then UrlField(lib, kw[key]) else None
  }

  function ApprovedAt(lib: Library, kw: Kwargs): (r: Option<Date>) {
    if "approved" in kw then ApprovedField(lib, kw["approved"]) else None
  }

  function IsActiveAt(lib: Library, kw: Kwargs): (r: Option<bool>) {
    if "is_active" in kw then IsActiveField(lib, kw["is_active"]) else None
  }

  function ErrorsOf<T>(r: Result<T, FieldError>): (es: seq<FieldError>)
    ensures |es| <= 1 && (es == [] <==> r.Ok?)
  {
    if r.Ok? then [] else [r.error]
  }

  // ---------------------------------------------------------------------------
  // DiscBase

  /** `DiscBase.parse_datetime`, a before-validator of `approved`: a string is read with
      `strptime(value, "%Y-%m-%d")`, which raises on any other text; every other value
      passes through unchanged. */
  function ParseDatetime(v: Value): (r: Result<Value, Raised>)
    ensures !v.PyStr? ==> r == Ok(v)
    ensures v.PyStr? && r.Ok? ==> r.value.PyDate? && ValidDate(r.value.date) && 8 <= |v.s| <= 10
    ensures r.Err? ==> v.PyStr? && r.error == ValueError
    ensures v.PyStr? ==> (r.Ok? <==> ParseYmd(v.s).Some?) && (r.Ok? ==> r.value == PyDate(ParseYmd(v.s).value))
  {
    match v
    case PyStr(s) =>
      (match ParseYmd(s)
       case Some(d) => Ok(PyDate(d))
       case None => Err(ValueError))
    case _ => Ok(v)
  }

  /** A `YYYY-MM-DD` string becomes the date with that year, month and day. */
  lemma ParseDatetimeIso(d: Date)
    requires ValidDate(d)
    ensures ParseDatetime(PyStr(IsoFormat(d))) == Ok(PyDate(d))
  {
    ParseIsoFormat(d);
  }

  /** The whole `approved` field: the before-validator, then pydantic's `date` check.
      A string is read only by `strptime`, never by pydantic's own date parsing. */
  function ApprovedField(lib: Library, v: Value): (r: Option<Date>)
    ensures v.PyStr? ==> r == ParseYmd(v.s)
    ensures !v.PyStr? ==> r == DateField(lib, v)
  {
    match ParseDatetime(v)
    case Ok(w) => DateField(lib, w)
    case Err(_) => None
  }

  datatype Disc = Disc(
    manufacturer: string,
    name: string,
    weightMax: real,
    diameter: Option<real>,
    height: Option<real>,
    rimDepth: Option<real>,
    rimDiameterInside: Option<real>,
    rimThickness: Option<real>,
    rimRatio: Option<real>,
    rimConfig: Option<real>,
    flex: Option<real>,
    cert: Option<string>,
    approved: Option<Date>,
    speed: Option<real>,
    glide: Option<real>,
    turn: Option<real>,
    fade: Option<real>,
    stability: Option<real>,
    description: Option<string>,
    url: Option<string>,
    oop: Option<bool>)

  const DefaultWeightMax: real := 180.0

  /** The dimension fields, declared `float = None`, in declaration order. */
  const MeasureFields: seq<string> := [
    "diameter", "height", "rim_depth", "rim_diameter_inside", "rim_thickness",
    "rim_ratio", "rim_config", "flex" ]

  /** The flight numbers, declared `Union[float, int] = None`, in declaration order. */
  const FlightFields: seq<string> := [ "speed", "glide", "turn", "fade", "stability" ]

  /** The errors of a group of fields. */
  function GroupErrors<T>(r: Result<T, seq<FieldError>>): (es: seq<FieldError>)
    ensures r.Ok? ==> es == []
    ensures r.Err? ==> es == r.error
  {
    if r.Ok? then [] else r.error
  }

  /** A run of numeric fields declared `= None`, validated in order: each absent field
      is `None`, each present one must be a number, and every failure is reported. */
  function OptionalNumbers(lib: Library, kw: Kwargs, keys: seq<string>): (r: Result<seq<Option<real>>, seq<FieldError>>)
    ensures r.Ok? <==> forall k :: k in keys && k in kw ==> FloatField(lib, kw[k]).Some?
    ensures r.Ok? ==> |r.value| == |keys|
    ensures r.Ok? ==> forall i :: 0 <= i < |keys| ==>
      r.value[i] == (if keys[i] in kw then FloatField(lib, kw[keys[i]]) else None)
    ensures r.Err? ==> r.error != []
    ensures r.Err? ==> forall e :: e in r.error ==> (
      && e.kind == Invalid && e.field in keys && e.field in kw
      && FloatField(lib, kw[e.field]).None?)
    decreases |keys|
  {
    if keys == [] then Ok([])
    else
      var first := DefaultNone(kw, keys[0], FloatAt(lib, kw, keys[0]));
      var rest := OptionalNumbers(lib, kw, keys[1..]);
      assert forall k :: k in keys <==> k == keys[0] || k in keys[1..];
      if first.Ok? && rest.Ok? then Ok([first.value] + rest.value)
      else Err(ErrorsOf(first) + GroupErrors(rest))
  }

  /** When `DiscBase(**kw)` succeeds, stated field by field rather than in declaration order. */
  predicate DiscAcceptable(lib: Library, kw: Kwargs) {
    && "manufacturer" in kw && StrField(lib, kw["manufacturer"]).Some?
    && "name" in kw && StrField(lib, kw["name"]).Some?
    && ("weight_max" in kw ==> FloatField(lib, kw["weight_max"]).Some?)
    && (forall f :: f in MeasureFields && f in kw ==> FloatField(lib, kw[f]).Some?)
    && (forall f :: f in FlightFields && f in kw ==> FloatField(lib, kw[f]).Some?)
    && ("cert" in kw ==> StrField(lib, kw["cert"]).Some?)
    && ("description" in kw ==> StrField(lib, kw["description"]).Some?)
    && ("approved" in kw ==> ApprovedField(lib, kw["approved"]).Some?)
    && ("url" in kw ==> UrlField(lib, kw["url"]).Some?)
    && ("oop" in kw ==> BoolField(lib, kw["oop"]).Some?)
  }

  /** `DiscBase(**kw)`. */
  function MakeDisc(lib: Library, kw: Kwargs): (r: Result<Disc, seq<FieldError>>)
    ensures r.Err? ==> r.error != []
    ensures "manufacturer" !in kw ==> r.Err? && FieldError("manufacturer", Missing) in r.error
    ensures "name" !in kw ==> r.Err? && FieldError("name", Missing) in r.error
    ensures r.Ok? ==> "manufacturer" in kw && StrField(lib, kw["manufacturer"]) == Some(r.value.manufacturer)
    ensures r.Ok? ==> "name" in kw && StrField(lib, kw["name"]) == Some(r.value.name)
    ensures r.Ok? && "weight_max" !in kw ==> r.value.weightMax == DefaultWeightMax
    ensures r.Ok? && "weight_max" in kw ==> FloatField(lib, kw["weight_max"]) == Some(r.value.weightMax)
    ensures r.Ok? && "approved" !in kw ==> r.value.approved == None
    ensures r.Ok? && "approved" in kw ==> r.value.approved == ApprovedField(lib, kw["approved"])
  {
    var manufacturer := Required(kw, "manufacturer", StrAt(lib, kw, "manufacturer"));
    var name := Required(kw, "name", StrAt(lib, kw, "name"));
    var weightMax := Defaulted(kw, "weight_max", DefaultWeightMax, FloatAt(lib, kw, "weight_max"));
    var measures := OptionalNumbers(lib, kw, MeasureFields);
    var cert := DefaultNone(kw, "cert", StrAt(lib, kw, "cert"));
    var approved := DefaultNone(kw, "approved", ApprovedAt(lib, kw));
    var flight := OptionalNumbers(lib, kw, FlightFields);
    var description := DefaultNone(kw, "description", StrAt(lib, kw, "description"));
    var url := DefaultNone(kw, "url", UrlAt(lib, kw, "url"));
    var oop := DefaultNone(kw, "oop", BoolAt(lib, kw, "oop"));
    if && manufacturer.Ok? && name.Ok? && weightMax.Ok? && measures.Ok? && cert.Ok?
       && approved.Ok? && flight.Ok? && description.Ok? && url.Ok? && oop.Ok?
    then
      var m, f := measures.value, flight.value;
      Ok(Disc(manufacturer.value, name.value, weightMax.value,
        m[0], m[1], m[2], m[3], m[4], m[5], m[6], m[7], cert.value, approved.value,
        f[0], f[1], f[2], f[3], f[4], description.value, url.value, oop.value))
    else
      Err(ErrorsOf(manufacturer) + ErrorsOf(name) + ErrorsOf(weightMax) + GroupErrors(measures)
        + ErrorsOf(cert) + ErrorsOf(approved) + GroupErrors(flight) + ErrorsOf(description)
        + ErrorsOf(url) + ErrorsOf(oop))
  }

  /** `DiscBase(**kw)` succeeds exactly when every present field passes its check and
      both required fields are present. */
  lemma MakeDiscAcceptable(lib: Library, kw: Kwargs)
    ensures MakeDisc(lib, kw).Ok? <==> DiscAcceptable(lib, kw)
  {
  }

  /** Every dimension field of the disc is the number its argument coerces to, or
      `None` when the argument is absent. */
  lemma MakeDiscMeasures(lib: Library, kw: Kwargs)
    requires MakeDisc(lib, kw).Ok?
    ensures var d := MakeDisc(lib, kw).value;
      && d.diameter == FloatAt(lib, kw, "diameter") && d.height == FloatAt(lib, kw, "height")
      && d.rimDepth == FloatAt(lib, kw, "rim_depth")
      && d.rimDiameterInside == FloatAt(lib, kw, "rim_diameter_inside")
      && d.rimThickness == FloatAt(lib, kw, "rim_thickness")
      && d.rimRatio == FloatAt(lib, kw, "rim_ratio") && d.rimConfig == FloatAt(lib, kw, "rim_config")
      && d.flex == FloatAt(lib, kw, "flex")
  {
    var measures := OptionalNumbers(lib, kw, MeasureFields);
    assert MeasureFields[0] == "diameter" && MeasureFields[1] == "height" && MeasureFields[2] == "rim_depth";
    assert MeasureFields[3] == "rim_diameter_inside" && MeasureFields[4] == "rim_thickness";
    assert MeasureFields[5] == "rim_ratio" && MeasureFields[6] == "rim_config" && MeasureFields[7] == "flex";
  }

  /** Every flight number of the disc is the number its argument coerces to, or `None`
      when the argument is absent. */
  lemma MakeDiscFlight(lib: Library, kw: Kwargs)
    requires MakeDisc(lib, kw).Ok?
    ensures var d := MakeDisc(lib, kw).value;
      && d.speed == FloatAt(lib, kw, "speed") && d.glide == FloatAt(lib, kw, "glide")
      && d.turn == FloatAt(lib, kw, "turn") && d.fade == FloatAt(lib, kw, "fade")
      && d.stability == FloatAt(lib, kw, "stability")
  {
    var flight := OptionalNumbers(lib, kw, FlightFields);
    assert FlightFields[0] == "speed" && FlightFields[1] == "glide" && FlightFields[2] == "turn";
    assert FlightFields[3] == "fade" && FlightFields[4] == "stability";
  }

  /** The other optional fields of the disc are their arguments as validated, or `None`
      when absent. */
  lemma MakeDiscOptionalFields(lib: Library, kw: Kwargs)
    requires MakeDisc(lib, kw).Ok?
    ensures var d := MakeDisc(lib, kw).value;
      && d.cert == StrAt(lib, kw, "cert") && d.description == StrAt(lib, kw, "description")
      && d.url == UrlAt(lib, kw, "url") && d.oop == BoolAt(lib, kw, "oop")
  {
  }

  /** Absent numeric fields are all `None`. */
  lemma OptionalNumbersAbsent(lib: Library, kw: Kwargs, keys: seq<string>)
    requires forall k :: k in keys ==> k !in kw
    ensures OptionalNumbers(lib, kw, keys) == Ok(seq(|keys|, _ => None))
  {
    var r := OptionalNumbers(lib, kw, keys);
    var nones: seq<Option<real>> := seq(|keys|, _ => None);
    assert r.Ok?;
    forall i | 0 <= i < |keys|
      ensures r.value[i] == nones[i]
    {
      assert keys[i] in keys;
    }
    assert r.value == nones;
  }

  /** The keyword arguments of a disc given only its required fields hold no other field. */
  lemma OnlyRequiredGiven(kw: Kwargs, manufacturer: string, name: string)
    requires kw == map["manufacturer" := PyStr(manufacturer), "name" := PyStr(name)]
    ensures forall k :: k in MeasureFields ==> k !in kw
    ensures forall k :: k in FlightFields ==> k !in kw
    ensures "weight_max" !in kw && "cert" !in kw && "approved" !in kw
    ensures "description" !in kw && "url" !in kw && "oop" !in kw
    ensures kw["manufacturer"] == PyStr(manufacturer) && kw["name"] == PyStr(name)
  {
  }

  /** The defaults: a disc given only its two required strings is built with
      `weight_max` 180.0 and every other field `None`. */
  lemma DiscDefaults(lib: Library, manufacturer: string, name: string)
    ensures MakeDisc(lib, map["manufacturer" := PyStr(manufacturer), "name" := PyStr(name)])
      == Ok(Disc(manufacturer, name, 180.0, None, None, None, None, None, None, None, None,
                 None, None, None, None, None, None, None, None, None, None))
  {
    var kw := map["manufacturer" := PyStr(manufacturer), "name" := PyStr(name)];
    OnlyRequiredGiven(kw, manufacturer, name);
    OptionalNumbersAbsent(lib, kw, MeasureFields);
    OptionalNumbersAbsent(lib, kw, FlightFields);
  }

  /** An `approved` string that `strptime` rejects makes construction fail on that field,
      whatever the other fields hold. */
  lemma MakeDiscRejectsBadDate(lib: Library, kw: Kwargs)
    requires "approved" in kw && kw["approved"].PyStr? && ParseYmd(kw["approved"].s).None?
    ensures MakeDisc(lib, kw).Err?
    ensures FieldError("approved", Invalid) in MakeDisc(lib, kw).error
  {
  }

  // ---------------------------------------------------------------------------
  // CompanyBase

  /** ASCII lower-casing. `str.lower()` also lower-cases other scripts, but no character
      outside ASCII lower-cases to exactly one of the letters of "active" and
      "inactive", so comparing those two words after ASCII lower-casing is exact. */
  function LowerChar(c: char): (l: char)
    ensures 'A' <= c <= 'Z' ==> 'a' <= l <= 'z' && l as int - c as int == 'a' as int - 'A' as int
    ensures !('A' <= c <= 'Z') ==> l == c
  {
    if 'A' <= c <= 'Z' then (c as int - 'A' as int + 'a' as int) as char else c
  }

  function Lower(s: string): (t: string)
    ensures |t| == |s|
    ensures forall k :: 0 <= k < |s| ==> t[k] == LowerChar(s[k])
  {
    seq(|s|, k requires 0 <= k < |s| => LowerChar(s[k]))
  }

  /** `CompanyBase.parse_bool`, a before-validator of `is_active`. */
  function ParseBool(v: Value): (r: Value)
    ensures r == v || r.PyBool?
    ensures !v.PyStr? ==> r == v
    ensures v.PyStr? ==> (r == PyBool(true) <==> Lower(v.s) == "active")
    ensures v.PyStr? ==> (r == PyBool(false) <==> Lower(v.s) == "inactive")
  {
    match v
    case PyStr(s) =>
      if Lower(s) == "active" then PyBool(true)
      else if Lower(s) == "inactive" then PyBool(false)
      else v
    case _ => v
  }

  /** Letter case does not matter: two spellings that differ only in case map alike. */
  lemma ParseBoolIgnoresCase(s: string, t: string)
    requires Lower(s) == Lower(t)
    ensures ParseBool(PyStr(s)).PyBool? <==> ParseBool(PyStr(t)).PyBool?
    ensures ParseBool(PyStr(s)).PyBool? ==> ParseBool(PyStr(s)) == ParseBool(PyStr(t))
  {
  }

  /** Applying the validator to its own output changes nothing. */
  lemma ParseBoolIdempotent(v: Value)
    ensures ParseBool(ParseBool(v)) == ParseBool(v)
  {
  }

  lemma ParseBoolExamples()
    ensures ParseBool(PyStr("Inactive")) == PyBool(false)
    ensures ParseBool(PyStr("ACTIVE")) == PyBool(true)
    ensures ParseBool(PyStr("Pending")) == PyStr("Pending")
  {
    assert Lower("Inactive") == "inactive";
    assert Lower("ACTIVE") == "active";
    assert Lower("Pending") == "pending";
  }

  /** The whole `is_active` field: the before-validator, then pydantic's `bool` check. */
  function IsActiveField(lib: Library, v: Value): (r: Option<bool>) {
    BoolField(lib, ParseBool(v))
  }

  /** The status words, in any letter case, are the two booleans; a boolean is kept;
      any other string is left to pydantic's own reading; `None` is refused. */
  lemma IsActiveFieldValues(lib: Library, v: Value)
    ensures v.PyStr? && Lower(v.s) == "active" ==> IsActiveField(lib, v) == Some(true)
    ensures v.PyStr? && Lower(v.s) == "inactive" ==> IsActiveField(lib, v) == Some(false)
    ensures v.PyStr? && Lower(v.s) != "active" && Lower(v.s) != "inactive" ==> IsActiveField(lib, v) == lib.laxBool(v)
    ensures v.PyBool? ==> IsActiveField(lib, v) == Some(v.b)
    ensures v.PyNone? ==> IsActiveField(lib, v) == None
  {
  }

  datatype Company = Company(
    companyName: string,
    equipment: Option<string>,
    address: Option<string>,
    city: Option<string>,
    state: Option<string>,
    postalCode: Option<string>,
    country: Option<string>,
    phone: Option<string>,
    website: Option<string>,
    twitter: Option<string>,
    facebook: Option<string>,
    instagram: Option<string>,
    youtube: Option<string>,
    contactName: Option<string>,
    contactEmail: Option<string>,
    contactPhone: Option<string>,
    isActive: bool)

  /** The `CompanyBase` fields typed `str = None`: `None` itself is not accepted. */
  const CompanyStrFields: set<string> := {
    "equipment", "country", "contact_name", "contact_email", "contact_phone" }

  /** The `CompanyBase` fields typed `Optional[str]`. */
  const CompanyOptionalStrFields: set<string> := { "address", "city", "state", "postal_code", "phone" }

  /** The `CompanyBase` fields typed `Optional[HttpUrl]`. */
  const CompanyUrlFields: set<string> := { "website", "twitter", "facebook", "instagram", "youtube" }

  /** When `CompanyBase(**kw)` succeeds, stated field by field. */
  predicate CompanyAcceptable(lib: Library, kw: Kwargs) {
    && "company_name" in kw && StrField(lib, kw["company_name"]).Some?
    && (forall f :: f in CompanyStrFields && f in kw ==> StrField(lib, kw[f]).Some?)
    && (forall f :: f in CompanyOptionalStrFields && f in kw && kw[f] != PyNone ==> StrField(lib, kw[f]).Some?)
    && (forall f :: f in CompanyUrlFields && f in kw && kw[f] != PyNone ==> UrlField(lib, kw[f]).Some?)
    && ("is_active" in kw ==> IsActiveField(lib, kw["is_active"]).Some?)
  }

  /** `CompanyBase(**kw)`. */
  function MakeCompany(lib: Library, kw: Kwargs): (r: Result<Company, seq<FieldError>>)
    ensures r.Err? ==> r.error != []
    ensures "company_name" !in kw ==> r.Err? && FieldError("company_name", Missing) in r.error
    ensures r.Ok? ==> "company_name" in kw && StrField(lib, kw["company_name"]) == Some(r.value.companyName)
    ensures r.Ok? && "is_active" !in kw ==> r.value.isActive
    ensures r.Ok? && "is_active" in kw ==> IsActiveField(lib, kw["is_active"]) == Some(r.value.isActive)
  {
    var companyName := Required(kw, "company_name", StrAt(lib, kw, "company_name"));
    var equipment := DefaultNone(kw, "equipment", StrAt(lib, kw, "equipment"));
    var address := Nullable(kw, "address", StrAt(lib, kw, "address"));
    var city := Nullable(kw, "city", StrAt(lib, kw, "city"));
    var state := Nullable(kw, "state", StrAt(lib, kw, "state"));
    var postalCode := Nullable(kw, "postal_code", StrAt(lib, kw, "postal_code"));
    var country := DefaultNone(kw, "country", StrAt(lib, kw, "country"));
    var phone := Nullable(kw, "phone", StrAt(lib, kw, "phone"));
    var website := Nullable(kw, "website", UrlAt(lib, kw, "website"));
    var twitter := Nullable(kw, "twitter", UrlAt(lib, kw, "twitter"));
    var facebook := Nullable(kw, "facebook", UrlAt(lib, kw, "facebook"));
    var instagram := Nullable(kw, "instagram", UrlAt(lib, kw, "instagram"));
    var youtube := Nullable(kw, "youtube", UrlAt(lib, kw, "youtube"));
    var contactName := DefaultNone(kw, "contact_name", StrAt(lib, kw, "contact_name"));
    var contactEmail := DefaultNone(kw, "contact_email", StrAt(lib, kw, "contact_email"));
    var contactPhone := DefaultNone(kw, "contact_phone", StrAt(lib, kw, "contact_phone"));
    var isActive := Defaulted(kw, "is_active", true, IsActiveAt(lib, kw));
    if && companyName.Ok? && equipment.Ok? && address.Ok? && city.Ok? && state.Ok?
       && postalCode.Ok? && country.Ok? && phone.Ok? && website.Ok? && twitter.Ok?
       && facebook.Ok? && instagram.Ok? && youtube.Ok? && contactName.Ok?
       && contactEmail.Ok? && contactPhone.Ok? && isActive.Ok?
    then
      Ok(Company(companyName.value, equipment.value, address.value, city.value, state.value,
        postalCode.value, country.value, phone.value, website.value, twitter.value,
        facebook.value, instagram.value, youtube.value, contactName.value,
        contactEmail.value, contactPhone.value, isActive.value))
    else
      Err(ErrorsOf(companyName) + ErrorsOf(equipment) + ErrorsOf(address) + ErrorsOf(city)
        + ErrorsOf(state) + ErrorsOf(postalCode) + ErrorsOf(country) + ErrorsOf(phone)
        + ErrorsOf(website) + ErrorsOf(twitter) + ErrorsOf(facebook) + ErrorsOf(instagram)
        + ErrorsOf(youtube) + ErrorsOf(contactName) + ErrorsOf(contactEmail)
        + ErrorsOf(contactPhone) + ErrorsOf(isActive))
  }

  lemma MakeCompanyAcceptable(lib: Library, kw: Kwargs)
    ensures MakeCompany(lib, kw).Ok? <==> CompanyAcceptable(lib, kw)
  {
    AcceptedCompanyAcceptable(lib, kw);
    AcceptableCompanyAccepted(lib, kw);
  }

  lemma AcceptedCompanyAcceptable(lib: Library, kw: Kwargs)
    ensures MakeCompany(lib, kw).Ok? ==> CompanyAcceptable(lib, kw)
  {
  }

  lemma AcceptableCompanyAccepted(lib: Library, kw: Kwargs)
    ensures CompanyAcceptable(lib, kw) ==> MakeCompany(lib, kw).Ok?
  {
  }

  /** A status of "Inactive", in any letter case, gives an inactive company. */
  lemma InactiveCompany(lib: Library, kw: Kwargs)
    requires "is_active" in kw && kw["is_active"].PyStr? && Lower(kw["is_active"].s) == "inactive"
    requires MakeCompany(lib, kw).Ok?
    ensures !MakeCompany(lib, kw).value.isActive
  {
  }

  // ---------------------------------------------------------------------------
  // HoleScores

  const NoProfileUrl: string := "https://www.pdga.com/no_profile"

  /** `HoleScores.validate_profile_url`, a before-validator: an empty string or `None`
      becomes the placeholder profile address; every other value passes unchanged. */
  function ValidateProfileUrl(v: Value): (r: Value)
    ensures v == PyStr("") || v == PyNone ==> r == PyStr(NoProfileUrl)
    ensures v != PyStr("") && v != PyNone ==> r == v
    ensures r != PyStr("") && r != PyNone
  {
    if v == PyStr("") || v == PyNone then PyStr(NoProfileUrl) else v
  }

  lemma ValidateProfileUrlIdempotent(v: Value)
    ensures ValidateProfileUrl(ValidateProfileUrl(v)) == ValidateProfileUrl(v)
  {
  }

  /** One entry of `validate_scores`' comprehension: `int(x) if x else None`. */
  function ScoreOf(x: Value): (r: Result<Option<int>, Raised>)
    ensures !Truthy(x) ==> r == Ok(None)
    ensures Truthy(x) ==> (r.Ok? <==> IntOf(x).Ok?)
    ensures Truthy(x) && r.Ok? ==> r.value == Some(IntOf(x).value)
    ensures Truthy(x) && r.Err? ==> r.error == IntOf(x).error
  {
    if Truthy(x) then
      match IntOf(x)
      case Ok(n) => Ok(Some(n))
      case Err(e) => Err(e)
    else Ok(None)
  }

  /** The comprehension over the items, left to right: the first entry whose `int()`
      raises aborts it with that exception. */
  function ConvertScores(xs: seq<Value>): (r: Result<seq<Option<int>>, Raised>)
    ensures r.Ok? <==> forall k :: 0 <= k < |xs| ==> ScoreOf(xs[k]).Ok?
    ensures r.Ok? ==> |r.value| == |xs| && forall k :: 0 <= k < |xs| ==> r.value[k] == ScoreOf(xs[k]).value
    ensures r.Err? ==> exists k :: (0 <= k < |xs| && ScoreOf(xs[k]) == Err(r.error)
                                    && forall j :: 0 <= j < k ==> ScoreOf(xs[j]).Ok?)
  {
    if xs == [] then Ok([])
    else
      match ScoreOf(xs[0])
      case Err(e) => Err(e)
      case Ok(s) =>
        match ConvertScores(xs[1..])
        case Err(e) =>
          ghost var k :| (0 <= k < |xs[1..]| && ScoreOf(xs[1..][k]) == Err(e)
                          && forall j :: 0 <= j < k ==> ScoreOf(xs[1..][j]).Ok?);
          assert ScoreOf(xs[k + 1]) == Err(e);
          assert forall j :: 1 <= j < k + 1 ==> xs[j] == xs[1..][j - 1];
          Err(e)
        case Ok(rest) =>
          assert forall k :: 1 <= k < |xs| ==> xs[k] == xs[1..][k - 1];
          Ok([s] + rest)
  }

  /** `HoleScores.validate_scores`, a before-validator of `scores`: iterates over the
      value (a list's items or a string's characters), turning falsy entries into `None`
      and every other entry into `int(entry)`. `None` itself is not iterable. */
  function ValidateScores(v: Value): (r: Result<seq<Option<int>>, Raised>)
    ensures v.PyList? ==> r == ConvertScores(v.items)
    ensures v.PyStr? ==> r == ConvertScores(seq(|v.s|, k requires 0 <= k < |v.s| => PyStr([v.s[k]])))
    ensures !v.PyList? && !v.PyStr? ==> r == Err(TypeError)
    ensures r.Ok? ==> (v.PyList? ==> |r.value| == |v.items|) && (v.PyStr? ==> |r.value| == |v.s|)
  {
    match Iterate(v)
    case Err(e) => Err(e)
    case Ok(xs) => ConvertScores(xs)
  }

  /** A score as the score table writes it: its decimal text, or "" for a hole without one. */
  function ScoreText(s: Option<int>): (v: Value)
    ensures v.PyStr? && (v.s == "" <==> s.None?)
  {
    match s
    case None => PyStr("")
    case Some(n) => PyStr(IntText(n))
  }

  function ScoreTexts(ss: seq<Option<int>>): (vs: seq<Value>)
    ensures |vs| == |ss|
  {
    seq(|ss|, k requires 0 <= k < |ss| => ScoreText(ss[k]))
  }

  lemma ScoreOfScoreText(s: Option<int>)
    ensures ScoreOf(ScoreText(s)) == Ok(s)
  {
    match s
    case None =>
    case Some(n) =>
      IntOfIntText(n);
      assert IntText(n) != "";
  }

  /** Round trip: scores written as text, with "" for missing holes, validate back to the
      same scores. */
  lemma ValidateScoresOfTexts(ss: seq<Option<int>>)
    ensures ValidateScores(PyList(ScoreTexts(ss))) == Ok(ss)
  {
    var vs := ScoreTexts(ss);
    forall k | 0 <= k < |ss|
      ensures ScoreOf(vs[k]) == Ok(ss[k])
    {
      ScoreOfScoreText(ss[k]);
    }
    assert ConvertScores(vs).value == ss;
  }

  /** A numeric score of 0 is falsy and comes back as a missing one. */
  lemma ZeroScoreIsMissing()
    ensures ValidateScores(PyList([PyInt(4), PyInt(0)])) == Ok([Some(4), None])
  {
    var r := ConvertScores([PyInt(4), PyInt(0)]);
    assert ScoreOf(PyInt(4)) == Ok(Some(4));
    assert ScoreOf(PyInt(0)) == Ok(None);
    assert r.value == [Some(4), None];
  }

  // ---------------------------------------------------------------------------
  // Event

  /** `Event.validate_website_url` as it is written: for any value other than `None` it
      calls `HttpUrl(value, scheme="https")`. Under pydantic 2 `HttpUrl` accepts the URL
      alone, so the keyword argument makes that call raise `TypeError`, which the
      `except ValidationError` clause does not catch and pydantic does not turn into a
      validation error: the exception escapes from the construction of the event. */
  function WebsiteUrlAsWritten(v: Value): (r: Result<Option<string>, Raised>)
    ensures v.PyNone? <==> r == Ok(None)
    ensures !v.PyNone? ==> r == Err(TypeError)
  {
    if v.PyNone? then Ok(None) else Err(TypeError)
  }

  /** `Event.validate_website_url` as intended: `None` stays `None`, a value the URL check
      accepts becomes that URL, and a value it rejects becomes `None` instead of failing. */
  function ValidateWebsiteUrl(lib: Library, v: Value): (r: Option<string>)
    ensures v.PyNone? ==> r == None
    ensures r.Some? ==> lib.httpUrl(v) == r
    ensures lib.httpUrl(v).None? ==> r == None
    ensures !v.PyNone? && lib.httpUrl(v).Some? ==> r.Some?
  {
    if v.PyNone? then None else lib.httpUrl(v)
  }

  /** The two disagree on every well-formed address: the one as written raises where the
      intended one yields the URL. */
  lemma WebsiteUrlAsWrittenRejectsValidUrl(lib: Library)
    requires lib.httpUrl(PyStr("https://example.com")) == Some("https://example.com/")
    ensures WebsiteUrlAsWritten(PyStr("https://example.com")) == Err(TypeError)
    ensures ValidateWebsiteUrl(lib, PyStr("https://example.com")) == Some("https://example.com/")
  {
  }

  // ---------------------------------------------------------------------------
  // PlayerEvent

  /** `PlayerEvent.remove_scores`, a before-model-validator: drops the "scores" entry of
      the incoming dict in place (if there is one) and hands on the same dict. */
  method RemoveScores(values: PyDict) returns (r: PyDict)
    modifies values
    ensures r == values
    ensures "scores" !in values.entries
    ensures forall k :: k in old(values.entries) && k != "scores" ==> k in values.entries && values.entries[k] == old(values.entries)[k]
    ensures values.entries.Keys == old(values.entries).Keys - {"scores"}
  {
    var _ := values.Pop("scores");
    r := values;
  }

  // ---------------------------------------------------------------------------
  // PlayerBase

  /** The fields of `PlayerBase`, under their Python names. */
  const PlayerFields: set<string> := {
    "player_name", "pdga_num", "profile_url", "location", "classification", "join_date",
    "membership_status", "current_rating", "career_events", "career_wins", "world_rank",
    "upcoming_events", "stats_years_urls", "event_results" }

  const ProfileExcluded: set<string> := { "stats_years_urls", "event_results" }

  /** `PlayerBase.profile`: the model's dump without the per-year statistics links and
      the event results. */
  function Profile<V>(dump: map<string, V>): (r: map<string, V>)
    ensures r.Keys == dump.Keys - ProfileExcluded
    ensures forall k :: k in r ==> r[k] == dump[k]
  {
    map k | k in dump && k !in ProfileExcluded :: dump[k]
  }

  /** A player's profile keeps the identifying fields and drops the two bulky ones. */
  lemma ProfileOfPlayer<V>(dump: map<string, V>)
    requires dump.Keys == PlayerFields
    ensures "player_name" in Profile(dump) && "pdga_num" in Profile(dump)
    ensures "stats_years_urls" !in Profile(dump) && "event_results" !in Profile(dump)
  {
  }
}
