/**
 * The upload checks and the hex colour parser: `isImageFile`, the decision of
 * `checkImageDimensions`, `validateImage` over abstract file attributes with
 * the image's load outcome as an input, and `hexToRgb` from `getContrastRatio`.
 */
module Utils {
  import opened Optional
  import Decimal

  // ---------------------------------------------------------------------------
  // Files and images

  /** What the checks read of a `File`: its MIME type and its size in bytes. */
  datatype FileInfo = FileInfo(mimeType: string, size: int)

  /** How loading the file as an image ends: with its dimensions, or with an error. */
  datatype ImageLoad = Loaded(width: int, height: int) | LoadError

  /** `file.type.startsWith("image/")`. */
  function IsImageFile(file: FileInfo): (r: bool)
    ensures r <==> |file.mimeType| >= 6 && file.mimeType[..6] == "image/"
  {
    "image/" <= file.mimeType
  }

  /** The value `checkImageDimensions` resolves with. */
  function CheckImageDimensions(load: ImageLoad, minWidth: int, minHeight: int): (r: bool)
    ensures r <==> load.Loaded? && load.width >= minWidth && load.height >= minHeight
  {
    match load
    case Loaded(w, h) => w >= minWidth && h >= minHeight
    case LoadError => false
  }

  /** The options object of `validateImage`: any field may be omitted. */
  datatype ValidationOptions = ValidationOptions(
    maxSize: Option<int>,
    minWidth: Option<int>,
    minHeight: Option<int>,
    acceptedTypes: Option<seq<string>>)

  /** The options with every omitted field replaced by its default. */
  datatype Limits = Limits(maxSize: int, minWidth: int, minHeight: int, acceptedTypes: seq<string>)

  const NoOptions: ValidationOptions := ValidationOptions(None, None, None, None)

  const DefaultMaxSize: int := 5 * 1024 * 1024
  const DefaultMinWidth: int := 1000
  const DefaultMinHeight: int := 1000
  const DefaultAcceptedTypes: seq<string> := ["image/jpeg", "image/png", "image/webp"]

  /** The destructuring with defaults at the top of `validateImage`. */
  function Resolve(options: ValidationOptions): (l: Limits)
    ensures options.maxSize.None? ==> l.maxSize == 5242880
    ensures options.minWidth.None? ==> l.minWidth == 1000
    ensures options.minHeight.None? ==> l.minHeight == 1000
    ensures options.acceptedTypes.None? ==> l.acceptedTypes == ["image/jpeg", "image/png", "image/webp"]
    ensures options.maxSize.Some? ==> l.maxSize == options.maxSize.value
    ensures options.minWidth.Some? ==> l.minWidth == options.minWidth.value
    ensures options.minHeight.Some? ==> l.minHeight == options.minHeight.value
    ensures options.acceptedTypes.Some? ==> l.acceptedTypes == options.acceptedTypes.value
  {
    Limits(
      OrElse(options.maxSize, DefaultMaxSize),
      OrElse(options.minWidth, DefaultMinWidth),
      OrElse(options.minHeight, DefaultMinHeight),
      OrElse(options.acceptedTypes, DefaultAcceptedTypes))
  }

  /** Why a file was refused; ErrorMessage renders each as the text the caller receives. */
  datatype ValidationError =
    | NotAnImage
    | TypeNotAccepted(acceptedTypes: seq<string>)
    | TooLarge(maxSize: int)
    | TooSmall(minWidth: int, minHeight: int)

  /** `{ valid, error? }`. */
  datatype Validation = Validation(valid: bool, error: Option<ValidationError>)

  /** The promise of `validateImage` either settles with a result or never settles. */
  datatype Settlement = Settled(result: Validation) | NeverSettles

  function Join(parts: seq<string>, separator: string): string {
    if parts == [] then ""
    else if |parts| == 1 then parts[0]
    else parts[0] + separator + Join(parts[1..], separator)
  }

  /**
   * The error text. `formattedMaxSize` is what `formatFileSize(maxSize)`
   * returns; that formatting (logarithms, two decimals) is not part of this model.
   */
  function ErrorMessage(e: ValidationError, formattedMaxSize: string): (r: string)
    ensures e.NotAnImage? ==> r == "File must be an image"
    ensures e.TypeNotAccepted? ==> "File must be one of: " <= r
    ensures e.TooLarge? ==> "File size must be less than " <= r && r[28..] == formattedMaxSize
    ensures e.TooSmall? ==> "Image must be at least " <= r && r[|r| - 2..] == "px"
  {
    match e
    case NotAnImage => "File must be an image"
    case TypeNotAccepted(types) => "File must be one of: " + Join(types, ", ")
    case TooLarge(_) => "File size must be less than " + formattedMaxSize
    case TooSmall(w, h) => "Image must be at least " + Decimal.IntString(w) + "x" + Decimal.IntString(h) + "px"
  }

  /** The kind of refusal can be read back from the message, and so can the size text of a size refusal. */
  lemma {:induction false} ErrorMessageTellsKind(e1: ValidationError, f1: string, e2: ValidationError, f2: string)
    requires ErrorMessage(e1, f1) == ErrorMessage(e2, f2)
    ensures e1.NotAnImage? <==> e2.NotAnImage?
    ensures e1.TypeNotAccepted? <==> e2.TypeNotAccepted?
    ensures e1.TooLarge? <==> e2.TooLarge?
    ensures e1.TooSmall? <==> e2.TooSmall?
    ensures e1.TooLarge? && e2.TooLarge? ==> f1 == f2
  {
    MessageMarks(e1, f1);
    MessageMarks(e2, f2);
  }

  /** Three characters of each message that single out its kind. */
  lemma {:induction false} MessageMarks(e: ValidationError, f: string)
    ensures var m := ErrorMessage(e, f);
      |m| >= 14 && (m[0] == 'I' <==> e.TooSmall?) && (m[5] == 's' <==> e.TooLarge?)
      && (m[13] == 'o' <==> e.TypeNotAccepted?) && (m[13] == 'a' <==> e.NotAnImage?)
  {
    var m := ErrorMessage(e, f);
    match e
    case NotAnImage =>
    case TypeNotAccepted(_) => assert m[..21] == "File must be one of: ";
    case TooLarge(_) => assert m[..28] == "File size must be less than ";
    case TooSmall(_, _) => assert m[..23] == "Image must be at least ";
  }

  predicate TypeAccepted(file: FileInfo, limits: Limits) {
    file.mimeType in limits.acceptedTypes
  }

  predicate SizeAllowed(file: FileInfo, limits: Limits) {
    file.size <= limits.maxSize
  }

  predicate LargeEnough(width: int, height: int, limits: Limits) {
    width >= limits.minWidth && height >= limits.minHeight
  }

  /** The three checks made before the image is loaded. */
  predicate PassesFileChecks(file: FileInfo, limits: Limits) {
    IsImageFile(file) && TypeAccepted(file, limits) && SizeAllowed(file, limits)
  }

  function Refuse(e: ValidationError): Settlement {
    Settled(Validation(false, Some(e)))
  }

  /**
   * `validateImage(file, options)`, where `load` is how loading the file as an
   * image ends. The checks run in a fixed order and the first failing one is
   * reported; an image that fails to load leaves the promise unsettled.
   */
  function ValidateImage(file: FileInfo, options: ValidationOptions, load: ImageLoad): (r: Settlement)
    ensures r.Settled? ==> (r.result.valid <==> r.result.error.None?)
    ensures r == Refuse(NotAnImage) <==> !IsImageFile(file)
    ensures r == Refuse(TypeNotAccepted(Resolve(options).acceptedTypes)) <==>
      IsImageFile(file) && !TypeAccepted(file, Resolve(options))
    ensures r == Refuse(TooLarge(Resolve(options).maxSize)) <==>
      IsImageFile(file) && TypeAccepted(file, Resolve(options)) && !SizeAllowed(file, Resolve(options))
    ensures r == Refuse(TooSmall(Resolve(options).minWidth, Resolve(options).minHeight)) <==>
      PassesFileChecks(file, Resolve(options)) && load.Loaded? && !LargeEnough(load.width, load.height, Resolve(options))
    ensures r == NeverSettles <==> PassesFileChecks(file, Resolve(options)) && load.LoadError?
    ensures r == Settled(Validation(true, None)) <==>
      PassesFileChecks(file, Resolve(options)) && load.Loaded? && LargeEnough(load.width, load.height, Resolve(options))
  {
    var limits := Resolve(options);
    if !IsImageFile(file) then Refuse(NotAnImage)
    else if file.mimeType !in limits.acceptedTypes then Refuse(TypeNotAccepted(limits.acceptedTypes))
    else if file.size > limits.maxSize then Refuse(TooLarge(limits.maxSize))
    else match load
      case LoadError => NeverSettles
      case Loaded(w, h) =>
        if w < limits.minWidth || h < limits.minHeight then Refuse(TooSmall(limits.minWidth, limits.minHeight))
        else Settled(Validation(true, None))
  }

  /** Once the file checks pass, the dimension step decides as `checkImageDimensions` does on a loaded image. */
  lemma DimensionStepAgrees(file: FileInfo, options: ValidationOptions, load: ImageLoad)
    requires PassesFileChecks(file, Resolve(options)) && load.Loaded?
    ensures ValidateImage(file, options, load).Settled?
    ensures ValidateImage(file, options, load).result.valid <==>
      CheckImageDimensions(load, Resolve(options).minWidth, Resolve(options).minHeight)
  {
  }

  /** Boundaries under the defaults: exactly 5 MiB and exactly 1000x1000 pass; one more byte or one pixel less fail. */
  lemma DefaultBoundaries()
    ensures ValidateImage(FileInfo("image/png", 5242880), NoOptions, Loaded(1000, 1000)) == Settled(Validation(true, None))
    ensures ValidateImage(FileInfo("image/png", 5242881), NoOptions, Loaded(1000, 1000)) == Refuse(TooLarge(5242880))
    ensures ValidateImage(FileInfo("image/jpeg", 100), NoOptions, Loaded(999, 1000)) == Refuse(TooSmall(1000, 1000))
    ensures ValidateImage(FileInfo("image/webp", 100), NoOptions, Loaded(1000, 999)) == Refuse(TooSmall(1000, 1000))
    ensures ValidateImage(FileInfo("image/gif", 100), NoOptions, Loaded(1000, 1000)) == Refuse(TypeNotAccepted(DefaultAcceptedTypes))
    ensures ValidateImage(FileInfo("text/plain", 100), NoOptions, Loaded(1000, 1000)) == Refuse(NotAnImage)
  {
    assert "image/gif" !in DefaultAcceptedTypes;
    assert "text/plain"[0] != "image/"[0];
  }

  /** The default type error lists the accepted types separated by commas. */
  lemma DefaultTypesMessage(formattedMaxSize: string)
    ensures ErrorMessage(TypeNotAccepted(DefaultAcceptedTypes), formattedMaxSize)
      == "File must be one of: " + "image/jpeg, image/png, image/webp"
  {
    DefaultTypesJoined();
  }

  lemma DefaultTypesJoined()
    ensures Join(DefaultAcceptedTypes, ", ") == "image/jpeg, image/png, image/webp"
  {
    var types := DefaultAcceptedTypes;
    assert types[1..][1..] == ["image/webp"];
    assert Join(types[1..][1..], ", ") == "image/webp";
    assert Join(types[1..], ", ") == "image/png" + ", " + "image/webp";
    assert Join(types, ", ") == "image/jpeg" + ", " + ("image/png" + ", " + "image/webp");
  }

  /** The default dimension error. */
  lemma DefaultDimensionMessage(formattedMaxSize: string)
    ensures ErrorMessage(TooSmall(DefaultMinWidth, DefaultMinHeight), formattedMaxSize)
      == "Image must be at least " + "1000" + "x" + "1000" + "px"
  {
    Decimal.ThousandString();
  }

  // ---------------------------------------------------------------------------
  // hexToRgb

  predicate IsHexDigit(c: char) {
    ('0' <= c <= '9') || ('a' <= c <= 'f') || ('A' <= c <= 'F')
  }

  predicate AllHex(s: string) {
    forall i :: 0 <= i < |s| ==> IsHexDigit(s[i])
  }

  function HexValue(c: char): (v: nat)
    requires IsHexDigit(c)
    ensures v < 16
  {
    if '0' <= c <= '9' then (c as int) - ('0' as int)
    else if 'a' <= c <= 'f' then (c as int) - ('a' as int) + 10
    else (c as int) - ('A' as int) + 10
  }

  /** `parseInt` of the two hex digits at `i` and `i + 1`. */
  function PairValue(s: string, i: nat): (v: nat)
    requires i + 1 < |s| && IsHexDigit(s[i]) && IsHexDigit(s[i + 1])
    ensures v <= 255
  {
    16 * HexValue(s[i]) + HexValue(s[i + 1])
  }

  /** The strings the pattern `^#?([a-f\d]{2})([a-f\d]{2})([a-f\d]{2})$`, case-insensitive, matches. */
  predicate HexPattern(hex: string) {
    (|hex| == 6 && AllHex(hex)) || (|hex| == 7 && hex[0] == '#' && AllHex(hex[1..]))
  }

  /** The six digits of a matching string. */
  function Digits(hex: string): (d: string)
    requires HexPattern(hex)
    ensures |d| == 6 && AllHex(d)
  {
    if |hex| == 7 then hex[1..] else hex
  }

  /** `hexToRgb`: three bytes from a matching string, and `[0, 0, 0]` from anything else. */
  function HexToRgb(hex: string): (rgb: seq<int>)
    ensures |rgb| == 3 && forall i :: 0 <= i < 3 ==> 0 <= rgb[i] <= 255
    ensures !HexPattern(hex) ==> rgb == [0, 0, 0]
    ensures HexPattern(hex) ==>
      rgb == [PairValue(Digits(hex), 0), PairValue(Digits(hex), 2), PairValue(Digits(hex), 4)]
  {
    var body := if |hex| > 0 && hex[0] == '#' then hex[1..] else hex;
    if |body| == 6 && AllHex(body) then [PairValue(body, 0), PairValue(body, 2), PairValue(body, 4)]
    else [0, 0, 0]
  }

  /** A leading `#` does not change the result, unless the rest starts with `#` too. */
  lemma {:induction false} HashIsOptional(s: string)
    requires |s| == 0 || s[0] != '#'
    ensures HexToRgb("#" + s) == HexToRgb(s)
  {
    assert ("#" + s)[1..] == s;
    if |s| == 7 {
      assert !IsHexDigit(s[0]) ==> !AllHex(s[1..]) || !AllHex(s);
    }
  }

  /** Without the premise of HashIsOptional: `"#" + "#000001"` yields `[0, 0, 0]`, `"#000001"` does not. */
  lemma DoubleHashRejected()
    ensures HexToRgb("#" + "#000001") == [0, 0, 0]
    ensures HexToRgb("#000001") == [0, 0, 1]
  {
    assert !HexPattern("##000001");
    assert HexPattern("#000001");
    assert Digits("#000001") == "000001";
  }

  /** ASCII lower-casing. */
  function ToLowerChar(c: char): char {
    if 'A' <= c <= 'Z' then ((c as int) - ('A' as int) + ('a' as int)) as char else c
  }

  function ToLower(s: string): (r: string)
    ensures |r| == |s| && forall i :: 0 <= i < |s| ==> r[i] == ToLowerChar(s[i])
  {
    if s == [] then [] else [ToLowerChar(s[0])] + ToLower(s[1..])
  }

  lemma LowerDigit(c: char)
    ensures IsHexDigit(ToLowerChar(c)) <==> IsHexDigit(c)
    ensures IsHexDigit(c) ==> HexValue(ToLowerChar(c)) == HexValue(c)
  {
  }

  /** Lower-casing keeps exactly the strings the pattern matches. */
  lemma {:induction false} LowerPattern(hex: string)
    ensures HexPattern(ToLower(hex)) <==> HexPattern(hex)
  {
    var low := ToLower(hex);
    forall i | 0 <= i < |hex| ensures IsHexDigit(low[i]) <==> IsHexDigit(hex[i]) {
      LowerDigit(hex[i]);
    }
    if |hex| == 7 {
      assert low[0] == '#' <==> hex[0] == '#';
      assert forall i :: 0 <= i < 6 ==> low[1..][i] == low[i + 1] && hex[1..][i] == hex[i + 1];
    }
  }

  /** Lower-casing keeps the value of each of the six digits. */
  lemma {:induction false} LowerDigits(hex: string)
    requires HexPattern(hex)
    ensures HexPattern(ToLower(hex))
    ensures forall i :: 0 <= i < 6 ==> HexValue(Digits(ToLower(hex))[i]) == HexValue(Digits(hex)[i])
  {
    LowerPattern(hex);
    var low := ToLower(hex);
    var d := Digits(hex);
    var e := Digits(low);
    forall i | 0 <= i < 6 ensures HexValue(e[i]) == HexValue(d[i]) {
      var k := if |hex| == 7 then i + 1 else i;
      assert e[i] == low[k] && d[i] == hex[k];
      LowerDigit(hex[k]);
    }
  }

  /** Upper- and lower-case digits parse to the same bytes. */
  lemma {:induction false} CaseInsensitive(hex: string)
    ensures HexToRgb(ToLower(hex)) == HexToRgb(hex)
  {
    LowerPattern(hex);
    if HexPattern(hex) {
      LowerDigits(hex);
      var d := Digits(hex);
      var e := Digits(ToLower(hex));
      assert PairValue(e, 0) == PairValue(d, 0);
      assert PairValue(e, 2) == PairValue(d, 2);
      assert PairValue(e, 4) == PairValue(d, 4);
    }
  }

  /** Lower-case hex digit of `v < 16`. */
  function HexChar(v: nat): (c: char)
    requires v < 16
    ensures IsHexDigit(c) && HexValue(c) == v
  {
    if v < 10 then (('0' as int) + v) as char else (('a' as int) + v - 10) as char
  }

  /** Two hex digits of a byte. */
  function ByteHex(b: int): (s: string)
    requires 0 <= b <= 255
    ensures |s| == 2 && AllHex(s) && PairValue(s, 0) == b
  {
    [HexChar(b / 16), HexChar(b % 16)]
  }

  /** `#rrggbb` for three bytes: every colour has a spelling that hexToRgb reads back. */
  lemma HexRoundTrip(r: int, g: int, b: int)
    requires 0 <= r <= 255 && 0 <= g <= 255 && 0 <= b <= 255
    ensures HexToRgb("#" + ByteHex(r) + ByteHex(g) + ByteHex(b)) == [r, g, b]
    ensures HexToRgb(ByteHex(r) + ByteHex(g) + ByteHex(b)) == [r, g, b]
  {
    var d := ByteHex(r) + ByteHex(g) + ByteHex(b);
    assert AllHex(d) by {
      forall i | 0 <= i < 6 ensures IsHexDigit(d[i]) {
        if i < 2 { assert d[i] == ByteHex(r)[i]; }
        else if i < 4 { assert d[i] == ByteHex(g)[i - 2]; }
        else { assert d[i] == ByteHex(b)[i - 4]; }
      }
    }
    assert d[0] == ByteHex(r)[0] && d[1] == ByteHex(r)[1];
    assert d[2] == ByteHex(g)[0] && d[3] == ByteHex(g)[1];
    assert d[4] == ByteHex(b)[0] && d[5] == ByteHex(b)[1];
    assert PairValue(d, 0) == r && PairValue(d, 2) == g && PairValue(d, 4) == b;
    var h := "#" + d;
    assert h == "#" + ByteHex(r) + ByteHex(g) + ByteHex(b);
    assert h[1..] == d;
    assert Digits(h) == d;
  }
}
