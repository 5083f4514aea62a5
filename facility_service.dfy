/** The facility catalogue service: field validation, create/update/delete and
    activation of facilities over a repository keyed by id, and the admission
    rule and blob naming for facility images. */
module FacilityCatalog {
  import opened Wrappers
  import opened Text
  import opened FilePaths

  /** A conference facility as the repository stores it. */
  datatype Facility = Facility(
    Id: int,
    Name: string,
    Description: string,
    Address: string,
    PostalCode: string,
    City: string,
    MaxCapacity: int,
    PricePerDay: real,
    IsActive: bool,
    ImagePaths: string,
    CreatedDate: int)

  /** The arguments a caller passes to create or update a facility; a string
      argument may be null. */
  datatype FacilityFields = FacilityFields(
    name: Option<string>,
    description: Option<string>,
    address: Option<string>,
    postalCode: Option<string>,
    city: Option<string>,
    maxCapacity: int,
    pricePerDay: real,
    isActive: bool)

  /** Every rule whose violation raises a validation error. */
  datatype Rule =
    | NameRequired | AddressRequired | PostalCodeRequired | CityRequired
    | CapacityNotPositive | PriceNegative
    | InvalidId | FileMissing | FileTooLarge | NotAnImage

  /** The message each validation error carries. */
  function Message(rule: Rule): string {
    match rule
    case NameRequired => "Facility name is required."
    case AddressRequired => "Address is required."
    case PostalCodeRequired => "Postal code is required."
    case CityRequired => "City is required."
    case CapacityNotPositive => "Max capacity must be greater than zero."
    case PriceNegative => "Price per day cannot be negative."
    case InvalidId => "Invalid id."
    case FileMissing => "File is missing or empty."
    case FileTooLarge => "File is too large."
    case NotAnImage => "Only JPG or PNG is allowed."
  }

  /** The service's exceptions: a validation failure, or a missing facility. */
  datatype Error = Validation(rule: Rule) | NotFound(id: int)

  /** Each rule carries its own message, so the text of an error names the rule broken. */
  lemma MessageIdentifiesRule(r1: Rule, r2: Rule)
    requires Message(r1) == Message(r2)
    ensures r1 == r2
  {
  }

  /** Whether the given fields break one field rule (the upload rules never apply here). */
  predicate Violates(f: FacilityFields, rule: Rule) {
    match rule
    case NameRequired => IsNullOrWhiteSpace(f.name)
    case AddressRequired => IsNullOrWhiteSpace(f.address)
    case PostalCodeRequired => IsNullOrWhiteSpace(f.postalCode)
    case CityRequired => IsNullOrWhiteSpace(f.city)
    case CapacityNotPositive => f.maxCapacity <= 0
    case PriceNegative => f.pricePerDay < 0.0
    case _ => false
  }

  /** The position of a field rule in the order the checks run. */
  function Rank(rule: Rule): nat {
    match rule
    case NameRequired => 0
    case AddressRequired => 1
    case PostalCodeRequired => 2
    case CityRequired => 3
    case CapacityNotPositive => 4
    case PriceNegative => 5
    case _ => 6
  }

  /** The field checks of the facility service: None when every rule holds,
      otherwise the earliest rule, in check order, that the fields break. */
  function EnsureFacilityFields(f: FacilityFields): (r: Option<Rule>)
    ensures r.None? <==> forall rule :: !Violates(f, rule)
    ensures r.Some? ==> Violates(f, r.value)
    ensures r.Some? ==> forall rule :: Rank(rule) < Rank(r.value) ==> !Violates(f, rule)
  {
    if IsNullOrWhiteSpace(f.name) then assert Violates(f, NameRequired); Some(NameRequired)
    else if IsNullOrWhiteSpace(f.address) then assert Violates(f, AddressRequired); Some(AddressRequired)
    else if IsNullOrWhiteSpace(f.postalCode) then assert Violates(f, PostalCodeRequired); Some(PostalCodeRequired)
    else if IsNullOrWhiteSpace(f.city) then assert Violates(f, CityRequired); Some(CityRequired)
    else if f.maxCapacity <= 0 then assert Violates(f, CapacityNotPositive); Some(CapacityNotPositive)
    else if f.pricePerDay < 0.0 then assert Violates(f, PriceNegative); Some(PriceNegative)
    else None
  }

  /** Fields that pass validation have all four required strings present and
      non-blank after trimming. */
  lemma ValidFieldsTrimNonEmpty(f: FacilityFields)
    requires EnsureFacilityFields(f).None?
    ensures f.name.Some? && Trim(f.name.value) != []
    ensures f.address.Some? && Trim(f.address.value) != []
    ensures f.postalCode.Some? && Trim(f.postalCode.value) != []
    ensures f.city.Some? && Trim(f.city.value) != []
    ensures f.maxCapacity > 0 && f.pricePerDay >= 0.0
  {
    assert !Violates(f, NameRequired) && !Violates(f, AddressRequired);
    assert !Violates(f, PostalCodeRequired) && !Violates(f, CityRequired);
    assert !Violates(f, CapacityNotPositive) && !Violates(f, PriceNegative);
  }

  /** `g` holds the eight caller-supplied fields as the service stores them:
      the four required strings and the description trimmed (a null
      description becomes empty), the numbers and the flag exactly as given. */
  predicate Carries(g: Facility, f: FacilityFields) {
    && f.name.Some? && g.Name == Trim(f.name.value)
    && g.Description == (if f.description.Some? then Trim(f.description.value) else "")
    && f.address.Some? && g.Address == Trim(f.address.value)
    && f.postalCode.Some? && g.PostalCode == Trim(f.postalCode.value)
    && f.city.Some? && g.City == Trim(f.city.value)
    && g.MaxCapacity == f.maxCapacity
    && g.PricePerDay == f.pricePerDay
    && g.IsActive == f.isActive
  }

  /** `base` with the caller-supplied fields written over it, as both creation
      and update do; the id, images and creation date stay as they were. */
  function WithFields(base: Facility, f: FacilityFields): (g: Facility)
    requires EnsureFacilityFields(f).None?
    ensures Carries(g, f)
    ensures g.Id == base.Id && g.ImagePaths == base.ImagePaths && g.CreatedDate == base.CreatedDate
    ensures g.Name != [] && g.Address != [] && g.PostalCode != [] && g.City != []
  {
    ValidFieldsTrimNonEmpty(f);
    base.(
      Name := Trim(f.name.value),
      Description := if f.description.Some? then Trim(f.description.value) else "",
      Address := Trim(f.address.value),
      PostalCode := Trim(f.postalCode.value),
      City := Trim(f.city.value),
      MaxCapacity := f.maxCapacity,
      PricePerDay := f.pricePerDay,
      IsActive := f.isActive)
  }

  /** An uploaded form file; the content type may be null. */
  datatype FormFile = FormFile(FileName: string, ContentType: Option<string>, Length: nat)

  /** What an accepted upload reports back. */
  datatype FileUploadResult = FileUploadResult(FileName: string, BlobPath: string, Size: nat)

  /** The largest accepted image, 10 MiB. */
  const MaxBytes: nat := 10 * 1024 * 1024

  /** The content-type/extension pairing: a JPEG named .jpg or .jpeg, or a PNG
      named .png, compared after lower-casing both. */
  predicate IsAllowedImage(contentType: Option<string>, fileName: string) {
    var ct := ToLower(contentType.GetOr(""));
    var ext := ToLower(Extension(fileName));
    (ct == "image/jpeg" && (ext == ".jpg" || ext == ".jpeg")) || (ct == "image/png" && ext == ".png")
  }

  /** Comparison is case-insensitive: a file is accepted exactly when its
      lower-cased content type and lower-cased name are. */
  lemma UploadIgnoresCase(contentType: Option<string>, fileName: string)
    ensures IsAllowedImage(contentType, fileName) <==>
              IsAllowedImage(Some(ToLower(contentType.GetOr(""))), ToLower(fileName))
  {
    ToLowerIdempotent(contentType.GetOr(""));
    ExtensionOfLower(fileName);
    ToLowerIdempotent(Extension(fileName));
  }

  /** The blob an image is stored under: "{id}/{guid}_{fileName}". */
  function BlobName(facilityId: int, guid: string, fileName: string): string {
    IntToString(facilityId) + "/" + guid + "_" + fileName
  }

  /** The blob name keeps the facility id as its first path segment, so the
      images of two different facilities never share a blob name. */
  lemma {:induction false} BlobNamesSeparateFacilities(id1: int, g1: string, n1: string, id2: int, g2: string, n2: string)
    requires BlobName(id1, g1, n1) == BlobName(id2, g2, n2)
    ensures id1 == id2
  {
    var a, c := IntToString(id1), IntToString(id2);
    assert BlobName(id1, g1, n1) == a + ['/'] + (g1 + "_" + n1);
    assert BlobName(id2, g2, n2) == c + ['/'] + (g2 + "_" + n2);
    SplitAtFirst('/', a, g1 + "_" + n1, c, g2 + "_" + n2);
    IntToStringInjective(id1, id2);
  }

  /** An accepted name has, ignoring case, one of the three image extensions. */
  lemma AllowedImageExtension(contentType: Option<string>, fileName: string)
    requires IsAllowedImage(contentType, fileName)
    ensures var e := ToLower(Extension(fileName)); e == ".jpg" || e == ".jpeg" || e == ".png"
  {
  }

  /** The blob name ends with the extension of the uploaded file's name. */
  lemma BlobNameKeepsExtension(facilityId: int, guid: string, fileName: string)
    ensures EndsWith(BlobName(facilityId, guid, FileName(fileName)), Extension(fileName))
  {
    var name := FileName(fileName);
    ExtensionEndsFileName(fileName);
    assert BlobName(facilityId, guid, name) == (IntToString(facilityId) + "/" + guid + "_") + name;
    EndsWithAppend(IntToString(facilityId) + "/" + guid + "_", name, Extension(fileName));
  }

  /** The same holds after lower-casing both. */
  lemma LoweredBlobKeepsExtension(facilityId: int, guid: string, fileName: string)
    ensures EndsWith(ToLower(BlobName(facilityId, guid, FileName(fileName))), ToLower(Extension(fileName)))
  {
    BlobNameKeepsExtension(facilityId, guid, fileName);
    LowerEndsWith(BlobName(facilityId, guid, FileName(fileName)), Extension(fileName));
  }

  /** A name ending in one of the image extensions ends in one of them. */
  lemma EndsWithOneOf(b: string, e: string)
    requires EndsWith(b, e)
    requires e == ".jpg" || e == ".jpeg" || e == ".png"
    ensures EndsWith(b, ".jpg") || EndsWith(b, ".jpeg") || EndsWith(b, ".png")
  {
  }

  /** The blob an accepted image is stored under ends, ignoring case, in
      ".jpg", ".jpeg" or ".png". */
  lemma AcceptedBlobHasImageExtension(facilityId: int, guid: string, contentType: Option<string>, fileName: string)
    requires IsAllowedImage(contentType, fileName)
    ensures var b := ToLower(BlobName(facilityId, guid, FileName(fileName)));
            EndsWith(b, ".jpg") || EndsWith(b, ".jpeg") || EndsWith(b, ".png")
  {
    var b, e := ToLower(BlobName(facilityId, guid, FileName(fileName))), ToLower(Extension(fileName));
    LoweredBlobKeepsExtension(facilityId, guid, fileName);
    AllowedImageExtension(contentType, fileName);
    EndsWithOneOf(b, e);
  }

  /** Every row sits under its own id, and every id lies in 1 .. next-1. */
  ghost predicate KeyedBelow(rows: map<int, Facility>, next: int) {
    forall id :: id in rows ==> 0 < id < next && rows[id].Id == id
  }

  /** Storing a facility under its own id, below a possibly raised bound, keeps
      the rows well keyed. */
  lemma StoreKeepsKeyed(rows: map<int, Facility>, next: int, next': int, g: Facility)
    requires KeyedBelow(rows, next) && next <= next'
    requires 0 < g.Id < next'
    ensures KeyedBelow(rows[g.Id := g], next')
  {
  }

  /** The facility catalogue over its repository. */
  class FacilityService {
    /** The repository's rows, by facility id. */
    var facilities: map<int, Facility>
    /** The id the repository assigns to the next facility it stores. */
    var nextId: int

    /** Every stored facility sits under its own positive id, and ids not yet
        assigned are free. */
    ghost predicate Valid()
      reads this
    {
      && nextId > 0
      && KeyedBelow(facilities, nextId)
    }

    constructor ()
      ensures Valid() && facilities == map[]
    {
      facilities := map[];
      nextId := 1;
    }

    /** GetByIdAsync: the stored facility, or NotFound. */
    method GetById(id: int) returns (r: Result<Facility, Error>)
      ensures id in facilities ==> r == Ok(facilities[id])
      ensures id !in facilities ==> r == Err(NotFound(id))
    {
      if id in facilities {
        r := Ok(facilities[id]);
      } else {
        r := Err(NotFound(id));
      }
    }

    /** CreateAsync: validates, then stores a new facility with trimmed text
        fields, no images and the given numbers and flag. */
    method Create(f: FacilityFields, now: int) returns (r: Result<Facility, Error>)
      requires Valid()
      modifies this
      ensures Valid()
      ensures EnsureFacilityFields(f).Some? ==>
                r == Err(Validation(EnsureFacilityFields(f).value))
                && facilities == old(facilities) && nextId == old(nextId)
      ensures EnsureFacilityFields(f).None? ==> r.Ok?
      ensures r.Ok? ==>
                && r.value.Id == old(nextId) && r.value.Id !in old(facilities)
                && facilities == old(facilities)[r.value.Id := r.value]
                && Carries(r.value, f)
                && r.value.ImagePaths == ""
                && r.value.CreatedDate == now
    {
      var invalid := EnsureFacilityFields(f);
      if invalid.Some? {
        return Err(Validation(invalid.value));
      }
      var facility := WithFields(Facility(nextId, "", "", "", "", "", 0, 0.0, false, "", now), f);
      StoreKeepsKeyed(facilities, nextId, nextId + 1, facility);
      facilities := facilities[nextId := facility];
      nextId := nextId + 1;
      r := Ok(facility);
    }

    /** UpdateAsync: validates first (so bad fields are reported even for an
        unknown id), then overwrites the eight editable fields of the stored
        facility, keeping its id, images and creation date. */
    method Update(id: int, f: FacilityFields) returns (r: Result<Facility, Error>)
      requires Valid()
      modifies this
      ensures Valid() && nextId == old(nextId)
      ensures EnsureFacilityFields(f).Some? ==>
                r == Err(Validation(EnsureFacilityFields(f).value)) && facilities == old(facilities)
      ensures EnsureFacilityFields(f).None? && id !in old(facilities) ==>
                r == Err(NotFound(id)) && facilities == old(facilities)
      ensures EnsureFacilityFields(f).None? && id in old(facilities) ==> r.Ok?
      ensures r.Ok? ==>
                && id in old(facilities)
                && facilities == old(facilities)[id := r.value]
                && r.value.Id == id
                && r.value.ImagePaths == old(facilities)[id].ImagePaths
                && r.value.CreatedDate == old(facilities)[id].CreatedDate
                && Carries(r.value, f)
    {
      var invalid := EnsureFacilityFields(f);
      if invalid.Some? {
        return Err(Validation(invalid.value));
      }
      if id !in facilities {
        return Err(NotFound(id));
      }
      var existing := WithFields(facilities[id], f);
      StoreKeepsKeyed(facilities, nextId, nextId, existing);
      facilities := facilities[id := existing];
      r := Ok(existing);
    }

    /** DeleteAsync: removes the facility, or reports NotFound and changes nothing. */
    method Delete(id: int) returns (r: Result<(), Error>)
      requires Valid()
      modifies this
      ensures Valid() && nextId == old(nextId)
      ensures id in old(facilities) ==> r.Ok? && facilities == old(facilities) - {id}
      ensures id !in old(facilities) ==> r == Err(NotFound(id)) && facilities == old(facilities)
      ensures id !in facilities
    {
      if id !in facilities {
        return Err(NotFound(id));
      }
      facilities := facilities - {id};
      r := Ok(());
    }

    /** SetActiveAsync: flips only the active flag of one facility. */
    method SetActive(id: int, isActive: bool) returns (r: Result<Facility, Error>)
      requires Valid()
      modifies this
      ensures Valid() && nextId == old(nextId)
      ensures id in old(facilities) ==>
                r == Ok(old(facilities)[id].(IsActive := isActive))
                && facilities == old(facilities)[id := r.value]
      ensures id !in old(facilities) ==> r == Err(NotFound(id)) && facilities == old(facilities)
    {
      if id !in facilities {
        return Err(NotFound(id));
      }
      var facility := facilities[id];
      facility := facility.(IsActive := isActive);
      StoreKeepsKeyed(facilities, nextId, nextId, facility);
      facilities := facilities[id := facility];
      r := Ok(facility);
    }

    /** The checks and naming of UploadImageAsync: id, presence and size are
        checked before the facility is looked up, the image type after; an
        accepted file is reported under its blob name. */
    method UploadImage(file: Option<FormFile>, facilityId: int, guid: string)
      returns (r: Result<FileUploadResult, Error>)
      ensures facilityId <= 0 ==> r == Err(Validation(InvalidId))
      ensures facilityId > 0 && (file.None? || file.value.Length == 0) ==>
                r == Err(Validation(FileMissing))
      ensures facilityId > 0 && file.Some? && file.value.Length > MaxBytes ==>
                r == Err(Validation(FileTooLarge))
      ensures facilityId > 0 && file.Some? && 0 < file.value.Length <= MaxBytes ==>
                && (facilityId !in facilities ==> r == Err(NotFound(facilityId)))
                && (facilityId in facilities && !IsAllowedImage(file.value.ContentType, file.value.FileName) ==>
                      r == Err(Validation(NotAnImage)))
      ensures r.Ok? <==>
                && facilityId > 0 && file.Some? && 0 < file.value.Length <= MaxBytes
                && facilityId in facilities
                && IsAllowedImage(file.value.ContentType, file.value.FileName)
      ensures r.Ok? ==>
                var name := FileName(file.value.FileName);
                r.value == FileUploadResult(name, BlobName(facilityId, guid, name), file.value.Length)
    {
      if facilityId <= 0 {
        return Err(Validation(InvalidId));
      }
      if file.None? || file.value.Length == 0 {
        return Err(Validation(FileMissing));
      }
      if file.value.Length > MaxBytes {
        return Err(Validation(FileTooLarge));
      }
      if facilityId !in facilities {
        return Err(NotFound(facilityId));
      }
      if !IsAllowedImage(file.value.ContentType, file.value.FileName) {
        return Err(Validation(NotAnImage));
      }
      var safeName := FileName(file.value.FileName);
      r := Ok(FileUploadResult(safeName, BlobName(facilityId, guid, safeName), file.value.Length));
    }
  }
}
