/**
 * `src/lib/auth/actions.ts`: the signed-in user's profile view, the admin
 * test, the image-signature check and the avatar upload.
 *
 * Supabase Auth, the `users` table and the `user-profile-picture` bucket
 * are inputs or the fields of an `AvatarStore`; image decoding (`sharp`)
 * is reduced to the dimensions it reports and whether it throws.
 */
module AuthActions {
  import opened Wrappers
  import opened Strings
  import opened Utf8
  import Arith

  // ---------------------------------------------------------------------
  // getCurrentUser and isAdmin

  /** The Supabase Auth user: id, email and `user_metadata.full_name`. */
  datatype AuthUser = AuthUser(id: string, email: string, metadataName: Option<string>)

  /** The `users` row, as far as the view reads it. */
  datatype Profile = Profile(fullName: Option<string>, role: Option<string>)

  datatype CurrentUser = CurrentUser(id: string, email: string, name: string, role: string)

  /** `a || b` on optional texts. */
  function Or(a: Option<string>, b: string): (r: string)
    ensures a.Some? && a.value != "" ==> r == a.value
    ensures (a.None? || a.value == "") ==> r == b
  {
    if a.Some? && a.value != "" then a.value else b
  }

  /**
   * `getCurrentUser()`: none without a session; the name is the profile's,
   * else the auth metadata's, else `User`, and the role defaults to
   * `customer`. A missing profile row is `None`.
   */
  function GetCurrentUser(authUser: Option<AuthUser>, profile: Option<Profile>): (r: Option<CurrentUser>)
    ensures r.None? <==> authUser.None?
    ensures r.Some? ==> r.value.id == authUser.value.id && r.value.email == authUser.value.email
    ensures r.Some? ==> r.value.name != "" && r.value.role != ""
    ensures r.Some? && profile.Some? && profile.value.fullName.Some? && profile.value.fullName.value != "" ==>
      r.value.name == profile.value.fullName.value
    ensures r.Some? && (profile.None? || Or(profile.value.fullName, "") == "") ==>
      r.value.name == Or(authUser.value.metadataName, "User")
    ensures r.Some? && (profile.None? || Or(profile.value.role, "") == "") ==> r.value.role == "customer"
    ensures r.Some? && profile.Some? && Or(profile.value.role, "") != "" ==> r.value.role == profile.value.role.value
  {
    if authUser.None? then None
    else
      var u := authUser.value;
      var profileName := if profile.Some? then profile.value.fullName else None;
      var profileRole := if profile.Some? then profile.value.role else None;
      Some(CurrentUser(u.id, u.email, Or(profileName, Or(u.metadataName, "User")), Or(profileRole, "customer")))
  }

  /** `isAdmin()`: the current user's role is `admin`. */
  predicate IsAdmin(authUser: Option<AuthUser>, profile: Option<Profile>) {
    var u := GetCurrentUser(authUser, profile);
    u.Some? && u.value.role == "admin"
  }

  /** Only a profile whose role is `admin` makes an admin; the default role never does. */
  lemma AdminNeedsProfileRole(authUser: Option<AuthUser>, profile: Option<Profile>)
    ensures IsAdmin(authUser, profile) <==> authUser.Some? && profile.Some? && profile.value.role == Some("admin")
  {
  }

  // ---------------------------------------------------------------------
  // validateFileSignature

  /** A lower-case hexadecimal digit. */
  function HexDigit(d: int): (c: char)
    requires 0 <= d < 16
  {
    if d < 10 then ('0' as int + d) as char else ('a' as int + d - 10) as char
  }

  /** `buffer.toString('hex')`: two lower-case digits per byte. */
  function Hex(bytes: seq<Byte>): (s: string)
    ensures |s| == 2 * |bytes|
  {
    if bytes == [] then "" else [HexDigit(bytes[0] / 16), HexDigit(bytes[0] % 16)] + Hex(bytes[1..])
  }

  /** Hex text has no upper-case letters, so `toLowerCase` leaves it alone. */
  lemma {:induction false} HexIsLower(bytes: seq<Byte>)
    ensures ToLower(Hex(bytes)) == Hex(bytes)
  {
    var s := Hex(bytes);
    forall i | 0 <= i < |s| ensures LowerChar(s[i]) == s[i] {
      HexCharAt(bytes, i);
    }
  }

  /** Every character of hex text is a digit or a letter a-f. */
  lemma {:induction false} HexCharAt(bytes: seq<Byte>, i: int)
    requires 0 <= i < |Hex(bytes)|
    ensures '0' <= Hex(bytes)[i] <= '9' || 'a' <= Hex(bytes)[i] <= 'f'
    decreases |bytes|
  {
    if i >= 2 {
      HexCharAt(bytes[1..], i - 2);
    }
  }

  /** Hex of a concatenation is the concatenation of the hex. */
  lemma {:induction false} HexAppend(a: seq<Byte>, b: seq<Byte>)
    ensures Hex(a + b) == Hex(a) + Hex(b)
    decreases |a|
  {
    if a == [] {
      assert a + b == b;
    } else {
      assert (a + b)[0] == a[0] && (a + b)[1..] == a[1..] + b;
      HexAppend(a[1..], b);
    }
  }

  /** Distinct digits print differently. */
  lemma HexDigitInjective(a: int, b: int)
    requires 0 <= a < 16 && 0 <= b < 16 && HexDigit(a) == HexDigit(b)
    ensures a == b
  {
    assert HexDigit(a) as int == (if a < 10 then '0' as int + a else 'a' as int + a - 10);
    assert HexDigit(b) as int == (if b < 10 then '0' as int + b else 'a' as int + b - 10);
  }

  /** Two bytes with the same two hex digits are equal. */
  lemma HexPairInjective(x: Byte, y: Byte)
    requires HexDigit(x / 16) == HexDigit(y / 16) && HexDigit(x % 16) == HexDigit(y % 16)
    ensures x == y
  {
    HexDigitInjective(x / 16, y / 16);
    HexDigitInjective(x % 16, y % 16);
    assert x == (x / 16) * 16 + x % 16 && y == (y / 16) * 16 + y % 16;
  }

  /** The hex of `bytes` starts with the hex of `sig` iff `bytes` starts with `sig`. */
  lemma {:induction false} HexPrefix(bytes: seq<Byte>, sig: seq<Byte>)
    ensures StartsWith(Hex(bytes), Hex(sig)) <==> |sig| <= |bytes| && bytes[..|sig|] == sig
    decreases |sig|
  {
    if sig != [] && bytes != [] {
      HexPrefix(bytes[1..], sig[1..]);
      var h, g := Hex(bytes), Hex(sig);
      assert h == [h[0], h[1]] + Hex(bytes[1..]);
      assert g == [g[0], g[1]] + Hex(sig[1..]);
      if StartsWith(h, g) {
        assert h[0] == g[0] && h[1] == g[1];
        HexPairInjective(bytes[0], sig[0]);
        assert Hex(sig[1..]) == g[2..] == h[2..|g|] == Hex(bytes[1..])[..|Hex(sig[1..])|];
        assert bytes[..|sig|] == [bytes[0]] + bytes[1..][..|sig| - 1];
      }
      if |sig| <= |bytes| && bytes[..|sig|] == sig {
        assert bytes[0] == sig[0];
        assert bytes[1..][..|sig| - 1] == sig[1..];
        assert h[..|g|] == [h[0], h[1]] + Hex(bytes[1..])[..|Hex(sig[1..])|];
      }
    }
  }

  const JpegSignature: seq<Byte> := [0xff, 0xd8, 0xff]
  const PngSignature: seq<Byte> := [0x89, 0x50, 0x4e, 0x47]
  const GifSignature: seq<Byte> := [0x47, 0x49, 0x46, 0x38]
  const RiffTag: seq<Byte> := [0x52, 0x49, 0x46, 0x46]
  const WebpTag: seq<Byte> := [0x57, 0x45, 0x42, 0x50]

  /** The magic-byte strings are the hex of these signatures. */
  lemma SignatureTexts()
    ensures Hex(JpegSignature) == "ffd8ff" && Hex(PngSignature) == "89504e47" && Hex(GifSignature) == "47494638"
    ensures Hex(RiffTag) == "52494646" && Hex(WebpTag) == "57454250"
  {
    JpegText();
    PngText();
    GifText();
    RiffText();
    WebpText();
  }

  lemma JpegText() ensures Hex(JpegSignature) == "ffd8ff" { HexOfBytes(JpegSignature, "ffd8ff"); }
  lemma PngText() ensures Hex(PngSignature) == "89504e47" { HexOfBytes(PngSignature, "89504e47"); }
  lemma GifText() ensures Hex(GifSignature) == "47494638" { HexOfBytes(GifSignature, "47494638"); }
  lemma RiffText() ensures Hex(RiffTag) == "52494646" { HexOfBytes(RiffTag, "52494646"); }
  lemma WebpText() ensures Hex(WebpTag) == "57454250" { HexOfBytes(WebpTag, "57454250"); }

  /** `Hex` read byte by byte: each byte gives its own two digits. */
  lemma {:induction false} HexOfBytes(bytes: seq<Byte>, text: string)
    requires |text| == 2 * |bytes|
    requires forall k :: 0 <= k < |bytes| ==>
      text[2 * k] == HexDigit(bytes[k] / 16) && text[2 * k + 1] == HexDigit(bytes[k] % 16)
    ensures Hex(bytes) == text
  {
    if bytes != [] {
      assert forall k :: 0 <= k < |bytes| - 1 ==>
        bytes[1..][k] == bytes[k + 1] && text[2..][2 * k] == text[2 * (k + 1)] && text[2..][2 * k + 1] == text[2 * (k + 1) + 1];
      HexOfBytes(bytes[1..], text[2..]);
      assert text == [text[0], text[1]] + text[2..];
    }
  }

  /** The claimed type lower-cased, `image/` and then `jpeg` replaced once. */
  function NormalizeClaimedType(claimedType: string): string {
    ReplaceFirst(ReplaceFirst(ToLower(claimedType), "image/", ""), "jpeg", "jpg")
  }

  /** The first 12 bytes of `buffer`. */
  function Header(buffer: seq<Byte>): (h: seq<Byte>)
    ensures |h| <= 12 && |h| <= |buffer| && h == buffer[..|h|]
    ensures |buffer| >= 12 ==> |h| == 12
  {
    if |buffer| < 12 then buffer else buffer[..12]
  }

  /** `buffer.toString('hex', 0, 12).toLowerCase()`. */
  function HeaderHex(buffer: seq<Byte>): (hex: string)
    ensures |hex| == 2 * |Header(buffer)|
  {
    ToLower(Hex(Header(buffer)))
  }

  /** `validateFileSignature(buffer, claimedType)`. */
  predicate ValidateFileSignature(buffer: seq<Byte>, claimedType: string)
    ensures ValidateFileSignature(buffer, claimedType) ==> NormalizeClaimedType(claimedType) in {"jpg", "png", "gif", "webp"}
  {
    var hex := HeaderHex(buffer);
    var ext := NormalizeClaimedType(claimedType);
    if ext == "jpg" && StartsWith(hex, "ffd8ff") then true
    else if ext == "png" && StartsWith(hex, "89504e47") then true
    else if ext == "gif" && StartsWith(hex, "47494638") then true
    else if ext == "webp" then StartsWith(hex, "52494646") && Contains(hex, "57454250")
    else false
  }

  /**
   * For JPEG, PNG and GIF the check is a byte-prefix test, and a type
   * other than the four is refused.
   */
  lemma SignatureByPrefix(buffer: seq<Byte>, claimedType: string)
    ensures var ext := NormalizeClaimedType(claimedType);
      && (ext == "jpg" ==> (ValidateFileSignature(buffer, claimedType) <==>
                             |buffer| >= 3 && buffer[..3] == JpegSignature))
      && (ext == "png" ==> (ValidateFileSignature(buffer, claimedType) <==>
                             |buffer| >= 4 && buffer[..4] == PngSignature))
      && (ext == "gif" ==> (ValidateFileSignature(buffer, claimedType) <==>
                             |buffer| >= 4 && buffer[..4] == GifSignature))
      && (ext !in {"jpg", "png", "gif", "webp"} ==> !ValidateFileSignature(buffer, claimedType))
  {
    var ext := NormalizeClaimedType(claimedType);
    if ext == "jpg" {
      JpegByPrefix(buffer, claimedType);
    } else if ext == "png" {
      PngByPrefix(buffer, claimedType);
    } else if ext == "gif" {
      GifByPrefix(buffer, claimedType);
    }
  }

  /** The header's hex is the hex of the header, so a signature test is a byte-prefix test. */
  lemma HeaderPrefix(buffer: seq<Byte>, sig: seq<Byte>)
    requires |sig| <= 12
    ensures StartsWith(HeaderHex(buffer), Hex(sig)) <==> |sig| <= |buffer| && buffer[..|sig|] == sig
  {
    var h := Header(buffer);
    assert HeaderHex(buffer) == Hex(h) by {
      HexIsLower(h);
    }
    assert (|sig| <= |h| && h[..|sig|] == sig) <==> (|sig| <= |buffer| && buffer[..|sig|] == sig) by {
      assert |h| == if |buffer| < 12 then |buffer| else 12;
      if |sig| <= |buffer| {
        assert h[..|sig|] == buffer[..|sig|];
      }
    }
    HexPrefix(h, sig);
  }

  lemma JpegByPrefix(buffer: seq<Byte>, claimedType: string)
    requires NormalizeClaimedType(claimedType) == "jpg"
    ensures ValidateFileSignature(buffer, claimedType) <==> |buffer| >= 3 && buffer[..3] == JpegSignature
  {
    JpegText();
    HeaderPrefix(buffer, JpegSignature);
  }

  lemma PngByPrefix(buffer: seq<Byte>, claimedType: string)
    requires NormalizeClaimedType(claimedType) == "png"
    ensures ValidateFileSignature(buffer, claimedType) <==> |buffer| >= 4 && buffer[..4] == PngSignature
  {
    PngText();
    HeaderPrefix(buffer, PngSignature);
  }

  lemma GifByPrefix(buffer: seq<Byte>, claimedType: string)
    requires NormalizeClaimedType(claimedType) == "gif"
    ensures ValidateFileSignature(buffer, claimedType) <==> |buffer| >= 4 && buffer[..4] == GifSignature
  {
    GifText();
    HeaderPrefix(buffer, GifSignature);
  }

  /** A RIFF header whose form type is WEBP passes as `image/webp`. */
  lemma WebpHeaderAccepted(buffer: seq<Byte>)
    requires |buffer| >= 12 && buffer[..4] == RiffTag && buffer[8..12] == WebpTag
    ensures ValidateFileSignature(buffer, "image/webp")
  {
    var h := buffer[..12];
    HexIsLower(h);
    SignatureTexts();
    HexPrefix(h, RiffTag);
    assert h == h[..8] + WebpTag;
    HexAppend(h[..8], WebpTag);
    assert OccursAt(Hex(h), "57454250", 16);
    WebpTypeNormalized();
  }

  /** `image/webp` normalises to `webp`. */
  lemma WebpTypeNormalized()
    ensures NormalizeClaimedType("image/webp") == "webp"
  {
    assert ToLower("image/webp") == "image/webp";
    IndexOfPrefix("image/webp", "image/");
    assert ReplaceFirst("image/webp", "image/", "") == "webp";
    forall i: nat ensures !OccursAt("webp", "jpeg", i) {
      if i == 0 {
        assert "webp"[0..4][0] != "jpeg"[0];
      }
    }
  }

  /** Only the first 12 bytes are read. */
  lemma OnlyHeaderRead(buffer: seq<Byte>, rest: seq<Byte>, claimedType: string)
    requires |buffer| >= 12
    ensures ValidateFileSignature(buffer + rest, claimedType) == ValidateFileSignature(buffer, claimedType)
  {
    assert (buffer + rest)[..12] == buffer[..12];
  }

  // ---------------------------------------------------------------------
  // uploadAvatar

  /** The uploaded `File`: name, size in bytes, MIME type and content. */
  datatype UploadFile = UploadFile(name: string, size: int, mimeType: string, content: seq<Byte>)

  /** The width and height `sharp` reports; 0 stands for a missing one. */
  datatype Dimensions = Dimensions(width: nat, height: nat)

  const AllowedExtensions := ["jpg", "jpeg", "png", "gif", "webp"]
  const MaxSize := 2 * 1024 * 1024
  const OneMinute := 60 * 1000
  const MaxDimension := 4096
  const InternalError := "Internal server error during upload"

  /** `name.split('.').pop()?.toLowerCase() || ''`: the text after the last dot, lower-cased. */
  function FileExtension(name: string): (ext: string)
    ensures '.' !in ext
  {
    var parts := Split(name, '.');
    var last := parts[|parts| - 1];
    assert '.' !in last;
    ToLower(last)
  }

  /**
   * The checks made before anything is read from the database, in order:
   * a file, an allowed extension, at most 2 MiB, an `image/` MIME type.
   */
  function FileError(file: Option<UploadFile>): (r: Option<string>)
    ensures file.None? ==> r == Some("No file provided")
    ensures file.Some? && FileExtension(file.value.name) !in AllowedExtensions ==>
      r == Some("Invalid file extension. Allowed: .jpg, .jpeg, .png, .gif, .webp")
    ensures file.Some? && FileExtension(file.value.name) in AllowedExtensions && file.value.size > MaxSize ==>
      r == Some("File size too large. Max 2MB allowed.")
    ensures r.None? <==> && file.Some? && FileExtension(file.value.name) in AllowedExtensions
                         && file.value.size <= MaxSize && StartsWith(file.value.mimeType, "image/")
  {
    if file.None? then Some("No file provided")
    else if FileExtension(file.value.name) !in AllowedExtensions then
      Some("Invalid file extension. Allowed: .jpg, .jpeg, .png, .gif, .webp")
    else if file.value.size > MaxSize then Some("File size too large. Max 2MB allowed.")
    else if !StartsWith(file.value.mimeType, "image/") then Some("Invalid file type. Only images are allowed.")
    else None
  }

  /** `Math.ceil((ONE_MINUTE - timeDiff) / 1000)` for a difference under a minute. */
  function RemainingSeconds(timeDiff: int): (r: int)
    requires timeDiff < OneMinute
    ensures r >= 1
    ensures timeDiff >= 0 ==> r <= 60
    ensures (r - 1) * 1000 < OneMinute - timeDiff <= r * 1000
  {
    Arith.CeilDivPositive(OneMinute - timeDiff, 1000);
    var r := Arith.CeilDiv(OneMinute - timeDiff, 1000);
    assert timeDiff >= 0 ==> (r - 1) * 1000 < 60 * 1000;
    r
  }

  /**
   * The rate limit: a profile updated less than a minute ago refuses the
   * upload. `parseDate` is `new Date(s).getTime()`, `None` for NaN, which
   * compares false and lets the upload through.
   */
  function RateLimitError(updatedAt: Option<string>, parseDate: string -> Option<int>, now: int): (r: Option<string>)
    ensures r.Some? <==> && updatedAt.Some? && updatedAt.value != "" && parseDate(updatedAt.value).Some?
                         && now - parseDate(updatedAt.value).value < OneMinute
  {
    if updatedAt.None? || updatedAt.value == "" then None
    else match parseDate(updatedAt.value)
      case None => None
      case Some(lastUpdate) =>
        var timeDiff := now - lastUpdate;
        if timeDiff < OneMinute
        then Some("Rate limit exceeded. Please wait " + NatToString(RemainingSeconds(timeDiff))
                  + " seconds before uploading again.")
        else None
  }

  /** The dimension checks on what `sharp(buffer).metadata()` reports. */
  function DimensionError(d: Dimensions): (r: Option<string>)
    ensures r.None? <==> 0 < d.width <= MaxDimension && 0 < d.height <= MaxDimension
  {
    if d.width == 0 || d.height == 0 then Some("Invalid image file: Unable to determine dimensions.")
    else if d.width > MaxDimension || d.height > MaxDimension
    then Some("Image too large. Maximum dimensions allowed are 4096x4096 pixels.")
    else None
  }

  /**
   * Every check before the storage upload, in the source's order. `user`
   * is `getCurrentUser()`; `dimensions` is `None` when `sharp` throws
   * reading the image, and `conversionFails` when converting it does.
   */
  function UploadError(file: Option<UploadFile>, user: Option<CurrentUser>, updatedAt: Option<string>,
                       parseDate: string -> Option<int>, now: int, dimensions: Option<Dimensions>,
                       conversionFails: bool): (r: Option<string>)
    ensures FileError(file).Some? ==> r == FileError(file)
    ensures FileError(file).None? && user.None? ==> r == Some("Unauthorized")
    ensures FileError(file).None? && user.Some? && RateLimitError(updatedAt, parseDate, now).Some? ==>
      r == RateLimitError(updatedAt, parseDate, now)
    ensures r.None? <==> && FileError(file).None? && user.Some? && RateLimitError(updatedAt, parseDate, now).None?
                         && ValidateFileSignature(file.value.content, file.value.mimeType)
                         && dimensions.Some? && DimensionError(dimensions.value).None? && !conversionFails
  {
    if FileError(file).Some? then FileError(file)
    else if user.None? then Some("Unauthorized")
    else if RateLimitError(updatedAt, parseDate, now).Some? then RateLimitError(updatedAt, parseDate, now)
    else if !ValidateFileSignature(file.value.content, file.value.mimeType)
    then Some("File content does not match its extension. Possible malicious file.")
    else if dimensions.None? then Some(InternalError)
    else if DimensionError(dimensions.value).Some? then DimensionError(dimensions.value)
    else if conversionFails then Some(InternalError)
    else None
  }

  /** The paths the cleanup removes: every listed file of the folder but the new one. */
  function FilesToRemove(userId: string, listing: seq<string>, fileName: string): (paths: seq<string>)
    ensures |paths| <= |listing|
    ensures forall p :: p in paths <==> exists n :: n in listing && n != fileName && p == userId + "/" + n
  {
    if listing == [] then []
    else
      var rest := FilesToRemove(userId, listing[1..], fileName);
      assert forall n :: n in listing <==> n == listing[0] || n in listing[1..];
      if listing[0] != fileName then [userId + "/" + listing[0]] + rest else rest
  }

  /** The new file is never among those removed. */
  lemma NewFileKept(userId: string, listing: seq<string>, fileName: string)
    ensures userId + "/" + fileName !in FilesToRemove(userId, listing, fileName)
  {
    forall n | n != fileName
      ensures userId + "/" + fileName != userId + "/" + n
    {
      assert (userId + "/" + n)[|userId| + 1..] == n;
      assert (userId + "/" + fileName)[|userId| + 1..] == fileName;
    }
  }

  datatype UploadResult = UploadFailed(error: string) | Uploaded(avatarUrl: string)

  /** The bucket's objects and the `avatar_url` column of `users`. */
  class AvatarStore {
    var objects: set<string>
    var avatarUrls: map<string, string>

    constructor (objects: set<string>, avatarUrls: map<string, string>)
      ensures this.objects == objects && this.avatarUrls == avatarUrls
    {
      this.objects := objects;
      this.avatarUrls := avatarUrls;
    }

    /**
     * `uploadAvatar(formData)`. `newId` is `crypto.randomUUID()`,
     * `uploadError` the storage error message, `listing` the folder's file
     * names (`None` when the listing is empty or fails) and `updateFails`
     * whether the profile update fails.
     */
    method UploadAvatar(file: Option<UploadFile>, user: Option<CurrentUser>, updatedAt: Option<string>,
                        parseDate: string -> Option<int>, now: int, dimensions: Option<Dimensions>,
                        conversionFails: bool, newId: string, uploadError: Option<string>,
                        listing: Option<seq<string>>, updateFails: bool, supabaseUrl: string)
      returns (r: UploadResult)
      modifies this
      ensures var pre := UploadError(file, user, updatedAt, parseDate, now, dimensions, conversionFails);
        && (pre.Some? ==> r == UploadFailed(pre.value) && objects == old(objects) && avatarUrls == old(avatarUrls))
        && (pre.None? && uploadError.Some? ==>
              && r == UploadFailed("Failed to upload image: " + uploadError.value)
              && objects == old(objects) && avatarUrls == old(avatarUrls))
        && (pre.None? && uploadError.None? ==>
              var fileName := newId + ".webp";
              var filePath := user.value.id + "/" + fileName;
              var url := supabaseUrl + "/storage/v1/object/public/user-profile-picture/" + filePath;
              var removed := if listing.Some? then FilesToRemove(user.value.id, listing.value, fileName) else [];
              && objects == (old(objects) + {filePath}) - (set p | p in removed)
              && (updateFails ==> r == UploadFailed("Failed to update profile") && avatarUrls == old(avatarUrls))
              && (!updateFails ==> r == Uploaded(url) && avatarUrls == old(avatarUrls)[user.value.id := url]))
    {
      var pre := UploadError(file, user, updatedAt, parseDate, now, dimensions, conversionFails);
      if pre.Some? {
        return UploadFailed(pre.value);
      }
      var fileName := newId + ".webp";
      var filePath := user.value.id + "/" + fileName;
      if uploadError.Some? {
        return UploadFailed("Failed to upload image: " + uploadError.value);
      }
      objects := objects + {filePath};
      if listing.Some? && |listing.value| > 0 {
        var filesToRemove := FilesToRemove(user.value.id, listing.value, fileName);
        if |filesToRemove| > 0 {
          objects := objects - (set p | p in filesToRemove);
        }
      }
      var publicUrl := supabaseUrl + "/storage/v1/object/public/user-profile-picture/" + filePath;
      if updateFails {
        return UploadFailed("Failed to update profile");
      }
      avatarUrls := avatarUrls[user.value.id := publicUrl];
      return Uploaded(publicUrl);
    }
  }

  /**
   * The rate limit's wait, for a last update not in the future, is between
   * 1 and 60 seconds, and an update a full minute ago or more never blocks.
   */
  lemma RateLimitWindow(lastUpdate: int, now: int, updatedAt: string, parseDate: string -> Option<int>)
    requires updatedAt != "" && parseDate(updatedAt) == Some(lastUpdate)
    ensures now - lastUpdate >= OneMinute ==> RateLimitError(Some(updatedAt), parseDate, now).None?
    ensures 0 <= now - lastUpdate < OneMinute ==> 1 <= RemainingSeconds(now - lastUpdate) <= 60
  {
  }
}
