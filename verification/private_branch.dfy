/**
 * The input checks of the private endpoints: the presence check of the data
 * verifier, the required fields of the email sender and the field and range
 * checks of the secure random number generator. Each function returns the
 * request body it would post (the caller's data unchanged) or the
 * BadRequestError it raises before any request.
 */
module PrivateBranch {

  import opened PhpValues
  import opened PhpStrings
  import opened PhpCompare
  import opened Errors

  const NoDataParameter := "You must provide at least one parameter."
  const FromMissing := "You must provide an email address from which the following will be sent."
  const ToMissing := "You must provide an email to be sent to."
  const SubjectMissing := "You must provide a subject for the email to be sent."
  const HtmlMissing := "You must provide HTML."
  const BoundsMissing := "Both 'min' and 'max' parameters must be defined."
  const BoundsOrder := "'min' must be less than 'max'."
  const MinOutOfRange := "'min' must be an integer in the interval [-1000000000, 1000000000]."
  const MaxOutOfRange := "'max' must be an integer in the interval [-1000000000, 1000000000]."

  const RandomLimit := 1000000000

  /** The kinds of data the verifier checks; at least one must be supplied. */
  const DataKeys: seq<string> := ["email", "phone", "domain", "creditCard", "ip", "wallet"]

  /** `array_reduce($keys, fn($carry, $key) => $carry || array_key_exists($key, $data), $carry)` */
  function AnyKeyExists(keys: seq<string>, data: map<string, Value>, carry: bool): bool {
    if keys == [] then carry else AnyKeyExists(keys[1..], data, carry || keys[0] in data)
  }

  /** The fold is true exactly when it starts true or some key is present. */
  lemma {:induction false} AnyKeyExistsMeansPresent(keys: seq<string>, data: map<string, Value>, carry: bool)
    ensures AnyKeyExists(keys, data, carry) <==> carry || exists i :: 0 <= i < |keys| && keys[i] in data
    decreases |keys|
  {
    if keys != [] {
      AnyKeyExistsMeansPresent(keys[1..], data, carry || keys[0] in data);
      if exists i :: 0 <= i < |keys| && keys[i] in data {
        var i :| 0 <= i < |keys| && keys[i] in data;
        if i > 0 {
          assert keys[1..][i - 1] in data;
        }
      }
      if exists i :: 0 <= i < |keys[1..]| && keys[1..][i] in data {
        var i :| 0 <= i < |keys[1..]| && keys[1..][i] in data;
        assert keys[i + 1] in data;
      }
    }
  }

  /**
   * `is_valid_data`: BadRequestError unless one of the verifier's data keys is
   * present. Presence is `array_key_exists`, so a key holding null counts.
   */
  function IsValidData(data: map<string, Value>): (r: Result<()>)
    ensures r.Err? <==> forall i :: 0 <= i < |DataKeys| ==> DataKeys[i] !in data
    ensures r.Err? ==> r.error == BadRequest(NoDataParameter)
  {
    AnyKeyExistsMeansPresent(DataKeys, data, false);
    if !AnyKeyExists(DataKeys, data, false) then Err(BadRequest(NoDataParameter)) else Ok(())
  }

  /** A data key that is present with a null value satisfies the check. */
  lemma NullCountsAsPresent(data: map<string, Value>, k: string)
    requires k in DataKeys
    ensures IsValidData(data[k := Null]).Ok?
  {
    var i :| 0 <= i < |DataKeys| && DataKeys[i] == k;
    assert DataKeys[i] in data[k := Null];
  }

  /** The fields an email needs, with the error for each, in the order they are checked. */
  const EmailFields: seq<(string, string)> :=
    [("from", FromMissing), ("to", ToMissing), ("subject", SubjectMissing), ("html", HtmlMissing)]

  /** The position of the first field that is not set, or `|fields|` when all are. */
  function FirstUnset(data: map<string, Value>, fields: seq<(string, string)>): (k: nat)
    ensures k <= |fields|
    ensures forall j :: 0 <= j < k ==> IsSet(data, fields[j].0)
    ensures k < |fields| ==> !IsSet(data, fields[k].0)
  {
    if fields == [] || !IsSet(data, fields[0].0) then 0
    else 1 + FirstUnset(data, fields[1..])
  }

  /**
   * A run of `if (!isset($data[field])) throw new BadRequestError(message)`: it fails
   * exactly when some field is unset, and then with the message of the first unset one.
   */
  function RequireFields(data: map<string, Value>, fields: seq<(string, string)>): (r: Result<()>)
    ensures r.Ok? <==> forall i :: 0 <= i < |fields| ==> IsSet(data, fields[i].0)
    ensures r.Err? ==> exists i :: 0 <= i < |fields| && !IsSet(data, fields[i].0)
                          && (forall j :: 0 <= j < i ==> IsSet(data, fields[j].0))
                          && r.error == BadRequest(fields[i].1)
  {
    var k := FirstUnset(data, fields);
    if k < |fields| then Err(BadRequest(fields[k].1)) else Ok(())
  }

  /** `send_email`: the four email fields must be set; the body is the caller's data. */
  function SendEmail(data: map<string, Value>): (r: Result<map<string, Value>>)
    ensures r.Ok? <==> forall i :: 0 <= i < |EmailFields| ==> IsSet(data, EmailFields[i].0)
    ensures r.Err? ==> r.error == RequireFields(data, EmailFields).error
    ensures r.Ok? ==> r.value == data
  {
    var fields := RequireFields(data, EmailFields);
    if fields.Err? then Err(fields.error) else Ok(data)
  }

  /** The first missing field decides the error: with `from` set and `to` missing,
      the error is about `to`, whatever else is missing. */
  lemma SendEmailFirstMissing(data: map<string, Value>)
    requires IsSet(data, "from") && !IsSet(data, "to")
    ensures SendEmail(data) == Err(BadRequest(ToMissing))
  {
    var r := RequireFields(data, EmailFields);
    assert !IsSet(data, EmailFields[1].0);
    var i :| 0 <= i < |EmailFields| && !IsSet(data, EmailFields[i].0)
             && (forall j :: 0 <= j < i ==> IsSet(data, EmailFields[j].0))
             && r.error == BadRequest(EmailFields[i].1);
    assert !IsSet(data, EmailFields[1].0);
    assert i == 1;
  }

  /** `$v < -1000000000 || $v > 1000000000` */
  predicate OutOfRange(v: Value, other: (Value, Value) -> int) {
    Less(v, Int(-RandomLimit), other) || Greater(v, Int(RandomLimit), other)
  }

  /**
   * `get_random`: the email fields, then both bounds set, then `min >= max`, then
   * each bound outside one billion of zero, all with PHP's loose comparison. `other`
   * is the outcome of the comparisons the model does not compute. The body is the
   * caller's data.
   */
  function GetRandom(data: map<string, Value>, other: (Value, Value) -> int): (r: Result<map<string, Value>>)
    ensures r.Ok? ==> r.value == data
    ensures r.Ok? ==> RequireFields(data, EmailFields).Ok? && IsSet(data, "min") && IsSet(data, "max")
    ensures r.Err? ==> r.error.kind == BadRequestError
    ensures RequireFields(data, EmailFields).Err? ==> r == Err(RequireFields(data, EmailFields).error)
    ensures (RequireFields(data, EmailFields).Ok? && (!IsSet(data, "min") || !IsSet(data, "max")))
              ==> r == Err(BadRequest(BoundsMissing))
    ensures (RequireFields(data, EmailFields).Ok? && IsSet(data, "min") && IsSet(data, "max")
              && AtLeast(data["min"], data["max"], other))
              ==> r == Err(BadRequest(BoundsOrder))
    ensures (RequireFields(data, EmailFields).Ok? && IsSet(data, "min") && IsSet(data, "max")
              && !AtLeast(data["min"], data["max"], other) && OutOfRange(data["min"], other))
              ==> r == Err(BadRequest(MinOutOfRange))
    ensures (RequireFields(data, EmailFields).Ok? && IsSet(data, "min") && IsSet(data, "max")
              && !AtLeast(data["min"], data["max"], other) && !OutOfRange(data["min"], other)
              && OutOfRange(data["max"], other))
              ==> r == Err(BadRequest(MaxOutOfRange))
  {
    var fields := RequireFields(data, EmailFields);
    if fields.Err? then Err(fields.error)
    else if !IsSet(data, "min") || !IsSet(data, "max") then Err(BadRequest(BoundsMissing))
    else if AtLeast(data["min"], data["max"], other) then Err(BadRequest(BoundsOrder))
    else if OutOfRange(data["min"], other) then Err(BadRequest(MinOutOfRange))
    else if OutOfRange(data["max"], other) then Err(BadRequest(MaxOutOfRange))
    else Ok(data)
  }

  /** An integer-like bound is out of range exactly when its integer is. */
  lemma OutOfRangeIntLike(v: Value, other: (Value, Value) -> int)
    requires IntLike(v)
    ensures OutOfRange(v, other) <==> NumValue(v) < -RandomLimit || NumValue(v) > RandomLimit
  {
    CmpIntLike(v, Int(-RandomLimit), other);
    CmpIntLike(Int(RandomLimit), v, other);
  }

  /** For integer bounds, and strings PHP reads as integers, the request is accepted
      exactly when -10^9 <= min < max <= 10^9, whatever `other` is. */
  lemma GetRandomNumericBounds(data: map<string, Value>, other: (Value, Value) -> int)
    requires RequireFields(data, EmailFields).Ok?
    requires "min" in data && IntLike(data["min"]) && "max" in data && IntLike(data["max"])
    ensures GetRandom(data, other).Ok?
      <==> -RandomLimit <= NumValue(data["min"]) < NumValue(data["max"]) <= RandomLimit
  {
    CmpIntLike(data["max"], data["min"], other);
    OutOfRangeIntLike(data["min"], other);
    OutOfRangeIntLike(data["max"], other);
  }

  /**
   * What an accepted request guarantees: an integer-like bound lies within one
   * billion of zero, and when both are integer-like, `min` is below `max`. A bound
   * that is not integer-like is not constrained to be a number at all.
   */
  lemma GetRandomAccepted(data: map<string, Value>, other: (Value, Value) -> int)
    requires GetRandom(data, other).Ok?
    ensures IntLike(data["min"]) ==> -RandomLimit <= NumValue(data["min"]) <= RandomLimit
    ensures IntLike(data["max"]) ==> -RandomLimit <= NumValue(data["max"]) <= RandomLimit
    ensures IntLike(data["min"]) && IntLike(data["max"]) ==> NumValue(data["min"]) < NumValue(data["max"])
  {
    if IntLike(data["min"]) {
      OutOfRangeIntLike(data["min"], other);
    }
    if IntLike(data["max"]) {
      OutOfRangeIntLike(data["max"], other);
    }
    if IntLike(data["min"]) && IntLike(data["max"]) {
      CmpIntLike(data["max"], data["min"], other);
    }
  }

  /** Numeric strings are read as integers: min "1" and max "10" are accepted. */
  lemma GetRandomAcceptsNumericStrings(data: map<string, Value>, other: (Value, Value) -> int)
    requires RequireFields(data, EmailFields).Ok?
    requires "min" in data && data["min"] == Str("1") && "max" in data && data["max"] == Str("10")
    ensures GetRandom(data, other).Ok?
  {
    assert IntToString(1) == "1";
    assert IntToString(10) == "10";
    IntToStringNumeric(1);
    IntToStringNumeric(10);
    GetRandomNumericBounds(data, other);
  }

  /** A two-character word starting with `0` and going on with a character that
      cannot occur in a number is compared with "-1000000000" and "1000000000" byte
      by byte, and lies between them. */
  lemma WordInRange(w: string, other: (Value, Value) -> int)
    requires |w| == 2 && w[0] == '0' && !NumberChar(w[1])
    ensures !OutOfRange(Str(w), other)
  {
    NonNumberChar(w, 1);
    CmpWordInt(w, -RandomLimit, other);
    CmpIntWord(RandomLimit, w, other);
    var lo, hi := IntToString(-RandomLimit), IntToString(RandomLimit);
    assert StrCmp(w, lo) == 1 by {
      assert lo[0] == '-';
    }
    assert StrCmp(hi, w) == 1 by {
      assert hi == Digits(RandomLimit);
      assert hi[0] != '0' && IsDigit(hi[0]);
    }
  }

  /** A non-numeric `min` that is above `max` byte by byte passes the ordering check. */
  lemma WordOrder(min: string, max: string, other: (Value, Value) -> int)
    requires !Numeric(Str(min)) && StrCmp(max, min) == 1
    ensures !AtLeast(Str(min), Str(max), other)
  {
    CmpWords(max, min, other);
  }

  /** Two such words, ordered by their second character, pass the ordering check
      and both range checks. */
  lemma WordBounds(a: char, b: char, other: (Value, Value) -> int)
    requires !NumberChar(a) && !NumberChar(b) && a < b
    ensures !AtLeast(Str(['0', a]), Str(['0', b]), other)
    ensures !OutOfRange(Str(['0', a]), other) && !OutOfRange(Str(['0', b]), other)
  {
    var min, max := ['0', a], ['0', b];
    NonNumberChar(min, 1);
    WordInRange(min, other);
    WordInRange(max, other);
    assert StrCmp(max, min) == 1 by {
      assert max[1..] == [b] && min[1..] == [a];
    }
    WordOrder(min, max, other);
  }

  /**
   * Two words are accepted as bounds, min "0x" and max "0y" among them: words made
   * of `0` and a character that cannot occur in a number, ordered by that character,
   * pass every check.
   */
  lemma GetRandomAcceptsWords(data: map<string, Value>, other: (Value, Value) -> int, a: char, b: char)
    requires RequireFields(data, EmailFields).Ok?
    requires !NumberChar(a) && !NumberChar(b) && a < b
    requires "min" in data && data["min"] == Str(['0', a]) && "max" in data && data["max"] == Str(['0', b])
    ensures GetRandom(data, other).Ok?
  {
    WordBounds(a, b, other);
  }

  /** A bool bound is compared as a bool: min 0 and max true pass every check. */
  lemma GetRandomAcceptsTrue(data: map<string, Value>, other: (Value, Value) -> int)
    requires RequireFields(data, EmailFields).Ok?
    requires "min" in data && data["min"] == Int(0) && "max" in data && data["max"] == Bool(true)
    ensures GetRandom(data, other).Ok?
  {
  }

  /** The ordering check comes before the range checks: min 2000000000 and max 1
      report the ordering, although min is also out of range. */
  lemma GetRandomOrderFirst(data: map<string, Value>, other: (Value, Value) -> int)
    requires RequireFields(data, EmailFields).Ok?
    requires "min" in data && data["min"] == Int(2000000000) && "max" in data && data["max"] == Int(1)
    ensures GetRandom(data, other) == Err(BadRequest(BoundsOrder))
  {
  }

  /** The bound checks as the messages describe them: each bound an integer (or a
      string PHP reads as one) in [-10^9, 10^9], `min` below `max`. A bound of any
      other kind is reported as out of range. */
  function IntendedBounds(min: Value, max: Value): (r: Result<()>)
    ensures r.Ok? <==> (IntLike(min) && IntLike(max)
      && -RandomLimit <= NumValue(min) < NumValue(max) <= RandomLimit)
  {
    if !IntLike(min) then Err(BadRequest(MinOutOfRange))
    else if !IntLike(max) then Err(BadRequest(MaxOutOfRange))
    else if NumValue(min) >= NumValue(max) then Err(BadRequest(BoundsOrder))
    else if NumValue(min) < -RandomLimit || NumValue(min) > RandomLimit then Err(BadRequest(MinOutOfRange))
    else if NumValue(max) < -RandomLimit || NumValue(max) > RandomLimit then Err(BadRequest(MaxOutOfRange))
    else Ok(())
  }

  /** `get_random` as its messages describe it: the email fields, both bounds set,
      then the intended bound checks. */
  function GetRandomIntended(data: map<string, Value>): (r: Result<map<string, Value>>)
    ensures r.Ok? <==> (RequireFields(data, EmailFields).Ok? && "min" in data && "max" in data
      && IntLike(data["min"]) && IntLike(data["max"])
      && -RandomLimit <= NumValue(data["min"]) < NumValue(data["max"]) <= RandomLimit)
    ensures r.Ok? ==> r.value == data
  {
    var fields := RequireFields(data, EmailFields);
    if fields.Err? then Err(fields.error)
    else if !IsSet(data, "min") || !IsSet(data, "max") then Err(BadRequest(BoundsMissing))
    else
      var bounds := IntendedBounds(data["min"], data["max"]);
      if bounds.Err? then Err(bounds.error) else Ok(data)
  }

  /** On integer-like bounds the intended check and the check as written agree,
      error for error. */
  lemma GetRandomIntendedAgrees(data: map<string, Value>, other: (Value, Value) -> int)
    requires "min" in data && IntLike(data["min"]) && "max" in data && IntLike(data["max"])
    ensures GetRandomIntended(data) == GetRandom(data, other)
  {
    CmpIntLike(data["max"], data["min"], other);
    OutOfRangeIntLike(data["min"], other);
    OutOfRangeIntLike(data["max"], other);
  }
}
