/**
 * The input checks and query-parameter building of the public endpoints:
 * prayer times, the input sanitizer (old and new entry points), password
 * validation and URL encryption. Each function returns the parameters the
 * endpoint is called with, or the BadRequestError it raises before any request.
 */
module PublicBranch {

  import opened PhpValues
  import opened PhpStrings
  import opened Errors
  import opened EmailPattern

  const PrayerTimesMissing := "You must provide a latitude and longitude."
  const SatinizerMissing := "You must specify at least the input."
  const SatinizeMissing := "You must specify the input."
  const PasswordMissing := "You must specify at least the password."
  const EmailInvalid := "If you provide an email address it must be valid."
  const BannedWordsShape := "If you provide a list of banned words; the list may not exceed 10 words and must be of array type."
  const BannedWordsRepeated := "If you provide a list of banned words; all elements must be non-repeated strings."
  const MinInvalid := "If you provide a minimum it must be valid."
  const MaxInvalid := "If you provide a maximum it must be valid."
  const UrlInvalid := "You must provide a valid url."

  const MaxBannedWords := 10

  /** The characters `trim($s, "[]")` removes. */
  const Brackets: set<char> := {'[', ']'}

  /** The characters `trim($s)` removes by default: space, tab, newline, carriage return, NUL, vertical tab. */
  const Whitespace: set<char> := {' ', '\t', '\n', '\r', '\0', '\U{B}'}

  /** `get_prayer_times`: both coordinates must be non-empty in PHP's sense. */
  function GetPrayerTimes(data: map<string, Value>): (r: Result<map<string, Value>>)
    ensures r.Err? <==> IsEmpty(data, "lat") || IsEmpty(data, "lon")
    ensures r.Err? ==> r.error == BadRequest(PrayerTimesMissing)
    ensures r.Ok? ==> r.value.Keys == {"lat", "lon"}
                      && r.value["lat"] == data["lat"] && r.value["lon"] == data["lon"]
                      && Truthy(r.value["lat"]) && Truthy(r.value["lon"])
  {
    if IsEmpty(data, "lat") || IsEmpty(data, "lon") then Err(BadRequest(PrayerTimesMissing))
    else Ok(map["lat" := data["lat"], "lon" := data["lon"]])
  }

  /** A zero coordinate, as an integer or as the string "0", is rejected like a missing one. */
  lemma PrayerTimesRejectsZero(lon: Value)
    ensures GetPrayerTimes(map["lat" := Int(0), "lon" := lon]).Err?
    ensures GetPrayerTimes(map["lat" := Str("0"), "lon" := lon]).Err?
  {
  }

  /** `satinizer` (deprecated): the input must be set; any non-null value passes. */
  function Satinizer(data: map<string, Value>): (r: Result<Value>)
    ensures r.Err? <==> !IsSet(data, "input")
    ensures r.Err? ==> r.error == BadRequest(SatinizerMissing)
    ensures r.Ok? ==> r.value == data["input"]
  {
    if !IsSet(data, "input") then Err(BadRequest(SatinizerMissing)) else Ok(data["input"])
  }

  /** `satinize`: the input itself must convert to true. */
  function Satinize(input: Value): (r: Result<Value>)
    ensures r.Err? <==> !Truthy(input)
    ensures r.Err? ==> r.error == BadRequest(SatinizeMissing)
    ensures r.Ok? ==> r.value == input
  {
    if !Truthy(input) then Err(BadRequest(SatinizeMissing)) else Ok(input)
  }

  /** The new entry point is stricter than the old one: whatever `satinize` accepts,
      `satinizer` accepts, but `satinizer` also lets "0", "", 0 and false through. */
  lemma SatinizeStricterThanSatinizer(input: Value)
    ensures Satinize(input).Ok? ==> Satinizer(map["input" := input]).Ok?
    ensures input in SetButEmpty ==> Satinizer(map["input" := input]).Ok? && Satinize(input).Err?
  {
    EmptyVersusIsSet(map["input" := input], "input");
  }

  /** `new_url_encrypt`: a non-empty URL that starts with "https://" or "http://". */
  function NewUrlEncrypt(url: Value): (r: Result<Value>)
    ensures r.Ok? <==> Truthy(url)
                       && (StartsWith(ToPhpString(url), "https://") || StartsWith(ToPhpString(url), "http://"))
    ensures r.Err? ==> r.error == BadRequest(UrlInvalid)
    ensures r.Ok? ==> r.value == url
  {
    if !Truthy(url) || !(StartsWith(ToPhpString(url), "https://") || StartsWith(ToPhpString(url), "http://"))
    then Err(BadRequest(UrlInvalid))
    else Ok(url)
  }

  /** Only a string can pass: the string forms of numbers, bools and arrays never start with "http". */
  lemma UrlEncryptAcceptsOnlyHttpStrings(url: Value)
    requires NewUrlEncrypt(url).Ok?
    ensures url.Str? && |url.s| >= 7 && url.s[..4] == "http"
  {
    var s := ToPhpString(url);
    assert s[..4] == "http" by {
      if StartsWith(s, "https://") { assert s[..4] == s[..8][..4]; } else { assert s[..4] == s[..7][..4]; }
    }
  }

  /** Each piece of the list with PHP's default whitespace trimmed off. */
  function TrimEach(pieces: seq<string>): (r: seq<string>)
    ensures |r| == |pieces|
    ensures forall i :: 0 <= i < |pieces| ==> r[i] == Trim(pieces[i], Whitespace)
  {
    if pieces == [] then [] else [Trim(pieces[0], Whitespace)] + TrimEach(pieces[1..])
  }

  /**
   * A string list of banned words, `array_map('trim', explode(",", trim($s, "[]")))`:
   * one word per comma-separated piece of `s` without its surrounding brackets, each
   * without surrounding whitespace.
   */
  function ParseBannedWords(s: string): (words: seq<string>)
    ensures |words| == Count(',', Trim(s, Brackets)) + 1
    ensures forall i :: 0 <= i < |words| ==>
              ',' !in words[i] && (words[i] == [] || (words[i][0] !in Whitespace && words[i][|words[i]| - 1] !in Whitespace))
  {
    var pieces := Explode(',', Trim(s, Brackets));
    TrimEachClean(pieces);
    TrimEach(pieces)
  }

  /** Trimming comma-free pieces leaves them comma-free, with no whitespace at either end. */
  lemma TrimEachClean(pieces: seq<string>)
    requires forall i :: 0 <= i < |pieces| ==> ',' !in pieces[i]
    ensures var words := TrimEach(pieces);
            forall i :: 0 <= i < |words| ==>
              ',' !in words[i] && (words[i] == [] || (words[i][0] !in Whitespace && words[i][|words[i]| - 1] !in Whitespace))
  {
    var words := TrimEach(pieces);
    forall i | 0 <= i < |words|
      ensures ',' !in words[i] && (words[i] == [] || (words[i][0] !in Whitespace && words[i][|words[i]| - 1] !in Whitespace))
    {
      TrimKeepsCharacters(pieces[i], Whitespace, ',');
    }
  }

  lemma TrimOuterBrackets(inner: string)
    requires inner != [] && inner[0] !in Brackets && inner[|inner| - 1] !in Brackets
    ensures Trim("[" + inner + "]", Brackets) == inner
  {
    var s := "[" + inner + "]";
    assert s[1..] == inner + "]";
    assert TrimLeft(s, Brackets) == TrimLeft(inner + "]", Brackets);
    assert TrimLeft(inner + "]", Brackets) == inner + "]";
    assert (inner + "]")[..|inner|] == inner;
    assert TrimRight(inner + "]", Brackets) == TrimRight(inner, Brackets);
  }

  lemma TrimLeadingSpace(b: string)
    requires b != [] && b[0] !in Whitespace && b[|b| - 1] !in Whitespace
    ensures Trim(" " + b, Whitespace) == b
  {
    assert (" " + b)[1..] == b;
    assert TrimLeft(" " + b, Whitespace) == TrimLeft(b, Whitespace);
    TrimNothing(b, Whitespace);
  }

  lemma TrimTwoWords(a: string, b: string)
    requires a != [] && a[0] !in Whitespace && a[|a| - 1] !in Whitespace
    requires b != [] && b[0] !in Whitespace && b[|b| - 1] !in Whitespace
    ensures TrimEach([a, " " + b]) == [a, b]
  {
    TrimNothing(a, Whitespace);
    TrimLeadingSpace(b);
  }

  lemma ExplodeTwoWords(a: string, b: string)
    requires ',' !in a && ',' !in b
    ensures Explode(',', a + ", " + b) == [a, " " + b]
  {
    assert a + ", " + b == a + [','] + (" " + b);
    ExplodeAfterPiece(',', a, " " + b);
    ExplodeWithoutSeparator(',', " " + b);
  }

  /** The usual written form: "[a, b]" gives the two words a and b. */
  lemma ParseTwoWords(a: string, b: string)
    requires a != [] && b != []
    requires ',' !in a && ',' !in b
    requires a[0] !in Brackets && a[0] !in Whitespace && a[|a| - 1] !in Whitespace
    requires b[0] !in Whitespace && b[|b| - 1] !in Brackets && b[|b| - 1] !in Whitespace
    ensures ParseBannedWords("[" + a + ", " + b + "]") == [a, b]
  {
    var inner := a + ", " + b;
    assert "[" + a + ", " + b + "]" == "[" + inner + "]";
    TrimOuterBrackets(inner);
    ExplodeTwoWords(a, b);
    TrimTwoWords(a, b);
  }

  /** "[]" is a non-empty string, so it is parsed, into one empty word. */
  lemma ParseEmptyBrackets()
    ensures ParseBannedWords("[]") == [""]
  {
    assert Trim("[]", Brackets) == "" by {
      assert "[]"[1..] == "]";
      assert "]"[1..] == "";
      assert TrimLeft("[]", Brackets) == "";
    }
    assert Explode(',', "") == [""];
    assert Trim("", Whitespace) == "";
    assert TrimEach([""]) == [""];
  }

  /** The string-valued elements wrapped as PHP strings. */
  function AsStrValues(words: seq<string>): (r: seq<Value>)
    ensures |r| == |words|
    ensures forall i :: 0 <= i < |words| ==> r[i] == Str(words[i])
  {
    if words == [] then [] else [Str(words[0])] + AsStrValues(words[1..])
  }

  /** `count($v)` for an array. */
  function ArrayCount(v: Value): nat
    requires IsArray(v)
  {
    if v.List? then |v.items| else |v.fields|
  }

  /** `count($v) === count(array_unique($v))`: no two elements have the same string form. */
  predicate DistinctAsStrings(v: Value)
    requires IsArray(v)
  {
    match v
    case List(items) =>
      forall i, j :: 0 <= i < j < |items| ==> ToPhpString(items[i]) != ToPhpString(items[j])
    case Dict(fields) =>
      forall k1, k2 :: k1 in fields && k2 in fields && k1 != k2 ==> ToPhpString(fields[k1]) != ToPhpString(fields[k2])
  }

  /**
   * The `bannedWords` block of `is_valid_pwd` for a non-empty value: a string is parsed
   * into a list first; the list must be an array of at most ten elements with no
   * two equal as strings. The result is the list that goes into the parameters.
   */
  function CheckBannedWords(v: Value): (r: Result<Value>)
    ensures r.Ok? ==> IsArray(r.value) && ArrayCount(r.value) <= MaxBannedWords && DistinctAsStrings(r.value)
    ensures r.Ok? && !v.Str? ==> r.value == v
    ensures r.Ok? && v.Str? ==> r.value == List(AsStrValues(ParseBannedWords(v.s)))
    ensures !v.Str? && !IsArray(v) ==> r == Err(BadRequest(BannedWordsShape))
    ensures r.Err? ==> r.error == BadRequest(BannedWordsShape) || r.error == BadRequest(BannedWordsRepeated)
  {
    var words := if v.Str? then List(AsStrValues(ParseBannedWords(v.s))) else v;
    if !IsArray(words) || ArrayCount(words) > MaxBannedWords then Err(BadRequest(BannedWordsShape))
    else if !DistinctAsStrings(words) then Err(BadRequest(BannedWordsRepeated))
    else Ok(words)
  }

  /** Wrapped words are distinct as strings exactly when the words are distinct. */
  lemma AsStrValuesDistinct(words: seq<string>)
    ensures var v := List(AsStrValues(words));
            IsArray(v) && ArrayCount(v) == |words|
            && (DistinctAsStrings(v) <==> forall i, j :: 0 <= i < j < |words| ==> words[i] != words[j])
  {
    var v := List(AsStrValues(words));
    assert forall i :: 0 <= i < |words| ==> ToPhpString(v.items[i]) == words[i];
  }

  /** A string of banned words is accepted exactly when it has at most ten
      comma-separated words (at most nine commas inside the brackets) and no word repeats. */
  lemma BannedWordsStringAccepted(s: string)
    ensures var words := ParseBannedWords(s);
            CheckBannedWords(Str(s)).Ok? <==>
              Count(',', Trim(s, Brackets)) < MaxBannedWords
              && forall i, j :: 0 <= i < j < |words| ==> words[i] != words[j]
  {
    var words := ParseBannedWords(s);
    var v := List(AsStrValues(words));
    AsStrValuesDistinct(words);
    assert CheckBannedWords(Str(s)).Ok? <==> ArrayCount(v) <= MaxBannedWords && DistinctAsStrings(v);
  }

  /** An array of banned words is accepted, unchanged, exactly when it has at most ten
      elements that are pairwise distinct as strings; any other kind of value is refused. */
  lemma BannedWordsArrayAccepted(v: Value)
    requires !v.Str?
    ensures CheckBannedWords(v).Ok? <==> IsArray(v) && ArrayCount(v) <= MaxBannedWords && DistinctAsStrings(v)
  {
  }

  /** `min` must be an integer in [8, 32]. */
  predicate MinAccepted(v: Value) {
    v.Int? && 8 <= v.i <= 32
  }

  /** `max` must be an integer in [32, 100]. */
  predicate MaxAccepted(v: Value) {
    v.Int? && 32 <= v.i <= 100
  }

  /** The email check: the string form of the value matches the email pattern. */
  predicate EmailAccepted(v: Value) {
    EmailShape(ToPhpString(v))
  }

  /** Only strings pass the email check. */
  lemma EmailAcceptedIsString(v: Value)
    requires EmailAccepted(v)
    ensures v.Str? && Matches(v.s)
  {
    var s := ToPhpString(v);
    MatchEndsInLetter(s);
    EmailShapeCorrect(s);
  }

  /** The email stage passes: no email was given, or it has the shape of an address. */
  predicate EmailPasses(data: map<string, Value>) {
    IsEmpty(data, "email") || EmailAccepted(data["email"])
  }

  /** The banned-words stage passes: none were given, or the list is accepted. */
  predicate BannedWordsPass(data: map<string, Value>) {
    IsEmpty(data, "bannedWords") || CheckBannedWords(data["bannedWords"]).Ok?
  }

  /** The `min` stage passes: no `min` was set, or it is an integer in [8, 32]. */
  predicate MinPasses(data: map<string, Value>) {
    !IsSet(data, "min") || MinAccepted(data["min"])
  }

  /** The `max` stage passes: no `max` was set, or it is an integer in [32, 100]. */
  predicate MaxPasses(data: map<string, Value>) {
    !IsSet(data, "max") || MaxAccepted(data["max"])
  }

  /** The checks of `is_valid_pwd` in the order the source makes them; the first one
      that fails decides the error, and every error is a BadRequestError with one of
      the check's messages. */
  function PwdCheck(data: map<string, Value>): (r: Result<()>)
    ensures r.Err? ==> r.error.kind == BadRequestError
    ensures r.Err? ==> r.error.message in {Prefix + PasswordMissing, Prefix + EmailInvalid,
      Prefix + BannedWordsShape, Prefix + BannedWordsRepeated, Prefix + MinInvalid, Prefix + MaxInvalid}
    ensures (!IsEmpty(data, "password") && !EmailPasses(data))
              ==> r == Err(BadRequest(EmailInvalid))
    ensures (!IsEmpty(data, "password") && EmailPasses(data) && !BannedWordsPass(data))
              ==> r == Err(CheckBannedWords(data["bannedWords"]).error)
    ensures (!IsEmpty(data, "password") && EmailPasses(data) && BannedWordsPass(data) && !MinPasses(data))
              ==> r == Err(BadRequest(MinInvalid))
    ensures (!IsEmpty(data, "password") && EmailPasses(data) && BannedWordsPass(data) && MinPasses(data)
              && !MaxPasses(data))
              ==> r == Err(BadRequest(MaxInvalid))
  {
    if IsEmpty(data, "password") then Err(BadRequest(PasswordMissing))
    else if !IsEmpty(data, "email") && !EmailAccepted(data["email"]) then Err(BadRequest(EmailInvalid))
    else if !IsEmpty(data, "bannedWords") && CheckBannedWords(data["bannedWords"]).Err? then
      Err(CheckBannedWords(data["bannedWords"]).error)
    else if IsSet(data, "min") && !MinAccepted(data["min"]) then Err(BadRequest(MinInvalid))
    else if IsSet(data, "max") && !MaxAccepted(data["max"]) then Err(BadRequest(MaxInvalid))
    else Ok(())
  }

  /** The empty-password error wins over every other problem. */
  lemma PwdPasswordCheckedFirst(data: map<string, Value>)
    requires IsEmpty(data, "password")
    ensures PwdCheck(data) == Err(BadRequest(PasswordMissing))
  {
  }

  /** A request is accepted exactly when the password is non-empty and every optional
      parameter is either absent or acceptable. */
  lemma PwdCheckAccepts(data: map<string, Value>)
    ensures PwdCheck(data).Ok? <==>
              !IsEmpty(data, "password") && EmailPasses(data) && BannedWordsPass(data)
              && MinPasses(data) && MaxPasses(data)
  {
  }

  /** What an accepted request satisfies. `min` and `max` are never compared with each
      other, yet the two ranges meet only at 32, so an accepted `min` never exceeds an accepted `max`. */
  lemma PwdAcceptedBounds(data: map<string, Value>)
    requires PwdCheck(data).Ok?
    ensures IsSet(data, "password") && Truthy(data["password"])
    ensures !IsEmpty(data, "email") ==> data["email"].Str? && Matches(data["email"].s)
    ensures IsSet(data, "min") ==> data["min"].Int? && 8 <= data["min"].i <= 32
    ensures IsSet(data, "max") ==> data["max"].Int? && 32 <= data["max"].i <= 100
    ensures IsSet(data, "min") && IsSet(data, "max") ==> data["min"].i <= data["max"].i
  {
    if !IsEmpty(data, "email") {
      EmailAcceptedIsString(data["email"]);
    }
  }

  /** The query parameters, added key by key in the source's order; `bannedWords` is
      the checked list, used only when the caller gave one. */
  function QueryParams(data: map<string, Value>, bannedWords: Value): map<string, Value>
    requires "password" in data
  {
    var withPassword := map["password" := data["password"]];
    var withEmail := if !IsEmpty(data, "email") then withPassword["email" := data["email"]] else withPassword;
    var withWords := if !IsEmpty(data, "bannedWords") then withEmail["bannedWords" := bannedWords] else withEmail;
    var withMin := if IsSet(data, "min") then withWords["min" := data["min"]] else withWords;
    if IsSet(data, "max") then withMin["max" := data["max"]] else withMin
  }

  /** The query holds the password, plus each optional parameter exactly when the
      caller gave it, and nothing else. */
  lemma QueryParamsKeys(data: map<string, Value>, bannedWords: Value)
    requires "password" in data
    ensures QueryParams(data, bannedWords).Keys
            == {"password"}
               + (if !IsEmpty(data, "email") then {"email"} else {})
               + (if !IsEmpty(data, "bannedWords") then {"bannedWords"} else {})
               + (if IsSet(data, "min") then {"min"} else {})
               + (if IsSet(data, "max") then {"max"} else {})
  {
    var withPassword := map["password" := data["password"]];
    var withEmail := if !IsEmpty(data, "email") then withPassword["email" := data["email"]] else withPassword;
    assert withEmail.Keys == {"password"} + (if !IsEmpty(data, "email") then {"email"} else {});
    var withWords := if !IsEmpty(data, "bannedWords") then withEmail["bannedWords" := bannedWords] else withEmail;
    assert withWords.Keys == withEmail.Keys + (if !IsEmpty(data, "bannedWords") then {"bannedWords"} else {});
    var withMin := if IsSet(data, "min") then withWords["min" := data["min"]] else withWords;
    assert withMin.Keys == withWords.Keys + (if IsSet(data, "min") then {"min"} else {});
  }

  /** The password, the email and the bounds are sent as given, the banned words as checked. */
  lemma QueryParamsValues(data: map<string, Value>, bannedWords: Value)
    requires "password" in data
    ensures var params := QueryParams(data, bannedWords);
            && "password" in params && params["password"] == data["password"]
            && ("email" in params ==> params["email"] == data["email"])
            && ("bannedWords" in params ==> params["bannedWords"] == bannedWords)
            && ("min" in params ==> params["min"] == data["min"])
            && ("max" in params ==> params["max"] == data["max"])
  {
    var withPassword := map["password" := data["password"]];
    var withEmail := if !IsEmpty(data, "email") then withPassword["email" := data["email"]] else withPassword;
    assert withEmail["password"] == data["password"];
    assert "email" in withEmail ==> withEmail["email"] == data["email"];
    var withWords := if !IsEmpty(data, "bannedWords") then withEmail["bannedWords" := bannedWords] else withEmail;
    assert "bannedWords" in withWords ==> withWords["bannedWords"] == bannedWords;
    var withMin := if IsSet(data, "min") then withWords["min" := data["min"]] else withWords;
    assert "min" in withMin ==> withMin["min"] == data["min"];
  }

  /** The banned words an accepted request sends: the checked list when the caller gave one. */
  function CheckedWords(data: map<string, Value>): Value
    requires PwdCheck(data).Ok?
  {
    if !IsEmpty(data, "bannedWords") then CheckBannedWords(data["bannedWords"]).value else Null
  }

  /**
   * `is_valid_pwd`: runs the checks in order and builds the query parameters one
   * key at a time. The parameter values are the caller's values before URL encoding;
   * `bannedWords` is the checked list.
   */
  method IsValidPwd(data: map<string, Value>) returns (r: Result<map<string, Value>>)
    ensures r.Err? <==> PwdCheck(data).Err?
    ensures r.Err? ==> r.error == PwdCheck(data).error
    ensures r.Ok? ==> "password" in data && r.value == QueryParams(data, CheckedWords(data))
  {
    if IsEmpty(data, "password") {
      return Err(BadRequest(PasswordMissing));
    }
    var params := map["password" := data["password"]];
    if !IsEmpty(data, "email") {
      if !EmailAccepted(data["email"]) {
        return Err(BadRequest(EmailInvalid));
      }
      params := params["email" := data["email"]];
    }
    if !IsEmpty(data, "bannedWords") {
      var words := CheckBannedWords(data["bannedWords"]);
      if words.Err? {
        return Err(words.error);
      }
      params := params["bannedWords" := words.value];
    }
    if IsSet(data, "min") {
      if !MinAccepted(data["min"]) {
        return Err(BadRequest(MinInvalid));
      }
      params := params["min" := data["min"]];
    }
    if IsSet(data, "max") {
      if !MaxAccepted(data["max"]) {
        return Err(BadRequest(MaxInvalid));
      }
      params := params["max" := data["max"]];
    }
    return Ok(params);
  }
}
