# dymo-api-php, modelled in Dafny

This project models the client-side core of the Dymo API PHP SDK. That core is:

- the `DymoAPI` client object, with its configuration and its token-validation cache;
- the argument checks that each endpoint function in the public and private branches runs before it sends any request;
- the SDK's exception hierarchy.

PHP's loosely typed values are modelled by the `Value` datatype: null, bool, int, string, list and string-keyed array. Floats are not among them. Truthiness, `isset`, `empty`, `??` and string conversion are modelled for every value. PHP 8's loose comparison is modelled with PHP's own numeric-string grammar: integer numeric strings (`IntString`) and float numeric strings (`FloatString`), each allowing whitespace before and after. Two numbers compare as numbers; a string that is not numeric compares byte by byte with another string or with an int's decimal form. Two kinds of pairs are not computed: pairs of two numbers at least one of which is a float numeric string, which PHP compares in floating point, and pairs of two arrays. The outcome of those is a parameter, `other`, and every lemma about the comparison holds whatever `other` is. The helpers from PHP's string library that the checks rely on are modelled too: `explode`, `implode` and `trim`.

The email regular expression is modelled in two layers. `StrictMatches` states with quantifiers what the pattern accepts when `$` means the very end of the subject. Without the `D` modifier, PCRE's `$` also matches before a newline that ends the subject. `Matches` adds that case: a strict match followed by one `"\n"`. `StrictEmailShape` and `EmailShape` decide the two directly, and each is proved equal to its quantified form. The password check uses `EmailShape`, as the code does.

Files:

- `php_values.dfy`: PHP values, truthiness, `isset` and `empty`, and integer to string conversion.
- `php_compare.dfy`: PHP 8's loose comparison, numeric strings and byte-wise string comparison.
- `php_strings.dfy`: `explode`, `implode`, `trim`, and the round trips between them.
- `email_pattern.dfy`: the password endpoint's email pattern.
- `errors.dfy`: the exception classes, `instanceof`, and the `[Dymo API] ` message prefix.
- `public_branch.dfy`: the checks of `get_prayer_times`, `satinizer`, `satinize`, `is_valid_pwd` and `new_url_encrypt`.
- `private_branch.dfy`: the checks of `is_valid_data`, `send_email` and `get_random`.
- `client.dfy`: the `DymoAPI` class, with its token cache, its guards, the renaming of the `ip` fields, and `sendEmail`.

A request that passes its checks is modelled by the parameters or data it would send. Each clock read becomes a `now` parameter. The decoded reply of the token-validation endpoint becomes a `reply` parameter.

Where the code and the documented behaviour differ, the model follows the code:

- The token check accepts any reply entry that is set. An entry of `false` passes too (`FalseEntryPasses`).
- A rejected token produces the message `[Dymo API] Token validation error: [Dymo API] Invalid root token.`, with the prefix twice.
- `initializeTokens` is private, and the constructor is its only caller. The constructor calls it on an object whose cache is empty. So in the class as written the cache is never found fresh, and every construction with a truthy API key posts the tokens (`NewClient`). `InitializeTokens`, `RefreshWindow` and `ValidateTwice` describe the method on its own, as a second call would see it.

## Model

| member | source | states |
|---|---|---|
| Errors.Parent | src/exceptions.php:3-13 | each class other than the base `Exception` sits one level below its parent |
| Errors.HandlerCoverage | src/exceptions.php:3-13 | a `catch (H)` catches class C exactly when C is H, or H is `Exception`, or H is `DymoAPIError` and C is one of the SDK's classes |
| Errors.NewError | src/exceptions.php:4-7 | an SDK error keeps its class, and its message is `[Dymo API] ` followed by the supplied text, which can be read back |
| Errors.NewErrorInjective | src/exceptions.php:4-7 | two errors of the same class are equal exactly when the supplied texts are equal |
| Errors.BadRequest | src/exceptions.php:12 | a BadRequestError whose message is the prefix followed by the text |
| Errors.Authentication | src/exceptions.php:10 | an AuthenticationError whose message is the prefix followed by the text |
| PhpValues.EmptyVersusIsSet | src/branches/public.php:157-179 | a key that is not `empty` is `isset`; a key is both set and `empty` exactly when its value is one of `false`, `0`, `""`, `"0"` or an empty array |
| PhpValues.Truthy | src/DymoAPI.php:46-48 | a value converts to false exactly when it is null, `false`, `0`, `""`, `"0"` or an empty array |
| PhpValues.IsSet | src/branches/private.php:135-139 | `isset($data[k])` holds exactly when the key is present and its value is not null |
| PhpValues.IsEmpty | src/branches/public.php:157 | `empty($data[k])` holds exactly when the key is absent or its value converts to false |
| PhpValues.Get | src/DymoAPI.php:53-54 | reading a key of an array that holds it yields its value; reading any other key, or from a value that is not an array, yields null |
| PhpValues.Coalesce | src/DymoAPI.php:19-25 | `$config[k] ?? d` is the stored value when it is set and `d` otherwise |
| PhpValues.Digits | src/DymoAPI.php:48-49 | the decimal digits of a natural number are non-empty and have no leading zero |
| PhpValues.DigitsRoundTrip | src/DymoAPI.php:48-49 | reading the digits back gives the number |
| PhpValues.IntToString | src/DymoAPI.php:48-49 | the string form of an int is digits, preceded by `-` only when the int is negative |
| PhpValues.IntToStringSign | src/DymoAPI.php:48-49 | the string form of an int starts with `-` exactly when the int is negative |
| PhpValues.ToPhpString | src/branches/public.php:164 | `(string)` of a string is itself and of an int is its decimal form |
| PhpStrings.Explode | src/branches/public.php:171 | `explode` yields one more piece than the separator occurs, and no piece contains the separator |
| PhpStrings.ImplodeExplode | src/branches/public.php:171 | joining the pieces of `explode` again gives the original string |
| PhpStrings.ExplodeWithoutSeparator | src/branches/public.php:171 | a string without the separator explodes to itself alone |
| PhpStrings.ExplodeAfterPiece | src/branches/public.php:171 | a separator-free piece followed by the separator splits off as the first piece |
| PhpStrings.ExplodeImplode | src/branches/public.php:171 | separator-free pieces survive a join followed by a split |
| PhpStrings.TrimLeft | src/branches/public.php:171-172 | left trimming drops exactly a maximal prefix of mask characters |
| PhpStrings.TrimRight | src/branches/public.php:171-172 | right trimming drops exactly a maximal suffix of mask characters |
| PhpStrings.TrimSlice | src/branches/public.php:171-172 | right-trimming the left-trimmed string leaves a slice of the input, starting where the left trim stopped, with only mask characters after it |
| PhpStrings.Trim | src/branches/public.php:171-172 | `trim` returns an infix of the input whose first and last characters are not in the mask, with only mask characters removed around it |
| PhpStrings.TrimKeepsCharacters | src/branches/public.php:171-172 | trimming introduces no character |
| PhpStrings.TrimIdempotent | src/branches/public.php:171-172 | trimming twice is trimming once |
| PhpStrings.TrimNothing | src/branches/public.php:171-172 | a string whose ends are outside the mask is left as it is |
| PhpCompare.IntString | src/branches/private.php:140-142 | an integer numeric string is optional whitespace, an optional sign, decimal digits and optional whitespace |
| PhpCompare.FloatString | src/branches/private.php:140-142 | a float numeric string is optional whitespace, an optional sign, digits with at most one decimal point (at least one digit), optionally `e` or `E` with a signed exponent of at least one digit, and optional whitespace, and is not an integer numeric string |
| PhpCompare.IntToStringNumeric | src/branches/private.php:140-142 | the decimal form of an int is an integer numeric string that denotes the int, so `$i == (string)$i` |
| PhpCompare.FirstIn | src/branches/private.php:140-142 | the position of the first character from a set: every character before it is outside the set, and the one at it is inside |
| PhpCompare.SkipLeadingSuffix | src/branches/private.php:140-142 | skipping leading whitespace leaves a suffix that still holds every non-whitespace character |
| PhpCompare.SkipTrailingPrefix | src/branches/private.php:140-142 | skipping trailing whitespace leaves a prefix that still holds every non-whitespace character |
| PhpCompare.StrippedNothing | src/branches/private.php:140-142 | a string with no whitespace at either end is its own stripped form |
| PhpCompare.NonNumberCharSigned | src/branches/private.php:140-142 | a signed run of digits holds no character that cannot occur in a number |
| PhpCompare.NonNumberCharMantissa | src/branches/private.php:140-142 | neither does a mantissa |
| PhpCompare.NonNumberCharUnsigned | src/branches/private.php:140-142 | neither does an unsigned decimal number |
| PhpCompare.NonNumberChar | src/branches/private.php:140-142 | a string holding a character that cannot occur in a number is neither an integer nor a float numeric string |
| PhpCompare.StrCmp | src/branches/private.php:140-142 | byte-wise comparison yields -1, 0 or 1 |
| PhpCompare.StrCmpOrder | src/branches/private.php:140-142 | byte-wise comparison is antisymmetric and yields 0 exactly for equal strings |
| PhpCompare.BoolInt | src/branches/private.php:140-142 | a value compared with a bool or null counts as 1 exactly when it is truthy |
| PhpCompare.Cmp | src/branches/private.php:140-142 | PHP 8's `<=>` yields -1, 0 or 1: bools and null as bools, two ints by value, integer numeric strings as their ints, an array above any scalar, and a pair of a non-numeric string and a string or int byte by byte; two numbers of which one is a float numeric string, and two arrays, give `other`'s sign |
| PhpCompare.Less | src/branches/private.php:141-142 | `$a < $b` is `($a <=> $b) < 0` |
| PhpCompare.Greater | src/branches/private.php:141-142 | `$a > $b` is evaluated as `$b < $a` |
| PhpCompare.AtLeast | src/branches/private.php:140 | `$a >= $b` is evaluated as `$b <= $a` |
| PhpCompare.CmpComputed | src/branches/private.php:140-142 | on the computed pairs the outcome does not depend on `other`, and swapping the operands negates it |
| PhpCompare.CmpIntLike | src/branches/private.php:140-142 | ints and integer numeric strings compare as the integers they denote, in both the less and the equal case |
| PhpCompare.CmpWordInt | src/branches/private.php:141-142 | a string that is neither an integer nor a float numeric string, compared with an int, is compared byte by byte with the int's decimal form |
| PhpCompare.CmpIntWord | src/branches/private.php:141-142 | the same with the int on the left |
| PhpCompare.CmpWords | src/branches/private.php:140 | two strings of which at least one is not numeric compare byte by byte, even when the other is a float numeric string |
| PhpCompare.IncompleteExponent | src/branches/private.php:141-142 | `"1e"` is not numeric, since an exponent needs digits, so `5` compared with `"1e"` is `"5"` against `"1e"` byte by byte, and 5 is the greater |
| PhpCompare.DecimalIsFloat | src/branches/private.php:140-142 | a digit, a point and a digit, such as `"1.5"`, form a float numeric string |
| PhpCompare.FloatAgainstWord | src/branches/private.php:140 | a float numeric string against a string holding a non-number character is compared byte by byte |
| EmailPattern.IndexOf | src/branches/public.php:164 | the index of the first occurrence of a character, or the length when it is absent |
| EmailPattern.HeadShapeCorrect | src/branches/public.php:164 | the decision procedure for the part before the last dot agrees with the pattern `[a-zA-Z0-9._\-+]+@?[a-zA-Z0-9.-]+` in both directions |
| EmailPattern.HeadShapeMatches | src/branches/public.php:164 | whatever the head decision accepts, the head pattern matches |
| EmailPattern.HostRunHasShape | src/branches/public.php:164 | a name run followed directly by a host run is accepted by the head decision |
| EmailPattern.AtSplitHasShape | src/branches/public.php:164 | a name run, an `@` and a host run are accepted by the head decision |
| EmailPattern.StrictMatches | src/branches/public.php:164 | the pattern body matches the whole string, `$` taken as the very end |
| EmailPattern.StrictEmailShape | src/branches/public.php:164 | the strict match decided by the position of the last dot, three to five characters from the end |
| EmailPattern.StrictShapeMatches | src/branches/public.php:164 | whatever the strict decision accepts, the strict pattern matches |
| EmailPattern.StrictMatchHasShape | src/branches/public.php:164 | whatever the strict pattern matches, the strict decision accepts |
| EmailPattern.StrictEmailShapeCorrect | src/branches/public.php:164 | the strict decision accepts exactly the strings the strict pattern matches |
| EmailPattern.StrictEndsInLetter | src/branches/public.php:164 | a strict match has at least five characters, ends in a letter, and has its dot three to five characters from the end |
| EmailPattern.StrictShapeNoNewline | src/branches/public.php:164 | a strict match holds no newline |
| EmailPattern.Matches | src/branches/public.php:164 | the pattern as PCRE runs it without `D`: a strict match, or a strict match followed by one final newline |
| EmailPattern.EmailShape | src/branches/public.php:164 | the same, decided directly |
| EmailPattern.EmailShapeCorrect | src/branches/public.php:164 | the decision accepts exactly the strings the pattern matches, final newline included |
| EmailPattern.MatchEndsInLetter | src/branches/public.php:164 | an accepted email has at least five characters, contains a dot, and ends in a letter or in a letter and a newline |
| EmailPattern.TrailingNewlineAccepted | src/branches/public.php:164 | every strict match is accepted again with `"\n"` appended, although the strict decision rejects that string |
| EmailPattern.AcceptsWithAt | src/branches/public.php:164 | `ab@cd.ef` is accepted |
| EmailPattern.AcceptsWithNewline | src/branches/public.php:164 | `ab@cd.ef` followed by a newline is accepted |
| EmailPattern.AcceptsWithoutAt | src/branches/public.php:164 | `ab.cd.ef` is accepted too: the `@` is optional in the pattern |
| EmailPattern.RejectsShortLabel | src/branches/public.php:164 | a final label of one letter (`ab@cd.e`) is rejected |
| EmailPattern.RejectsLongLabel | src/branches/public.php:164 | a final label of five letters (`ab@cd.efghi`) is rejected |
| PublicBranch.GetPrayerTimes | src/branches/public.php:18-24 | rejected exactly when `lat` or `lon` is `empty`, with the latitude-and-longitude message; otherwise the query holds just `lat` and `lon` |
| PublicBranch.PrayerTimesRejectsZero | src/branches/public.php:19 | a latitude of `0` or `"0"` is rejected as missing |
| PublicBranch.Satinizer | src/branches/public.php:71-76 | rejected exactly when `input` is not `isset`; otherwise the input is what gets sent |
| PublicBranch.Satinize | src/branches/public.php:121-123 | rejected exactly when the input is falsy; otherwise the input is what gets sent |
| PublicBranch.SatinizeStricterThanSatinizer | src/branches/public.php:71-123 | every input `satinize` accepts is accepted by `satinizer`, and the set-but-empty values are accepted only by `satinizer` |
| PublicBranch.NewUrlEncrypt | src/branches/public.php:218-219 | accepted exactly when the url is truthy and its string form starts with `https://` or `http://` |
| PublicBranch.UrlEncryptAcceptsOnlyHttpStrings | src/branches/public.php:219 | an accepted url is a string of at least seven characters beginning with `http` |
| PublicBranch.TrimEach | src/branches/public.php:172 | `array_map('trim', …)` trims every piece by the default whitespace mask and keeps the count |
| PublicBranch.ParseBannedWords | src/branches/public.php:170-173 | a string list becomes one word more than it has commas inside the outer brackets, and each word is comma-free with no surrounding whitespace |
| PublicBranch.TrimEachClean | src/branches/public.php:171-172 | trimming comma-free pieces leaves them comma-free, with no whitespace at either end |
| PublicBranch.TrimOuterBrackets | src/branches/public.php:171 | trimming by `[]` strips exactly the enclosing brackets |
| PublicBranch.TrimLeadingSpace | src/branches/public.php:172 | trimming removes the space that follows a comma |
| PublicBranch.TrimTwoWords | src/branches/public.php:172 | trimming the pieces `a` and ` b` gives `a` and `b` |
| PublicBranch.ExplodeTwoWords | src/branches/public.php:171 | `a, b` splits into `a` and ` b` |
| PublicBranch.ParseTwoWords | src/branches/public.php:170-173 | `[a, b]` parses to the two words `a` and `b` |
| PublicBranch.ParseEmptyBrackets | src/branches/public.php:170-173 | `[]` parses to one empty word, not to an empty list |
| PublicBranch.AsStrValues | src/branches/public.php:171 | the parsed words become one string value each |
| PublicBranch.CheckBannedWords | src/branches/public.php:168-176 | an accepted list is an array of at most 10 elements whose string forms are distinct: the caller's array itself, or the parsed string; a non-array is rejected with the shape message, and every rejection carries one of the two banned-word messages |
| PublicBranch.AsStrValuesDistinct | src/branches/public.php:175 | the wrapped words hold as many elements as the words, and are distinct as strings exactly when the words are distinct |
| PublicBranch.BannedWordsStringAccepted | src/branches/public.php:170-175 | a string list is accepted exactly when it has fewer than 10 commas and its parsed words are pairwise distinct |
| PublicBranch.BannedWordsArrayAccepted | src/branches/public.php:174-175 | a non-string is accepted exactly when it is an array of at most 10 elements with distinct string forms |
| PublicBranch.EmailAcceptedIsString | src/branches/public.php:163-164 | an email value that passes the pattern check is a string matching the pattern |
| PublicBranch.PwdCheck | src/branches/public.php:156-184 | the checks in the source's order, the first failing one deciding: past a non-empty password, a bad email gives the email message, then a bad banned-words list its own error, then a bad `min` the min message, then a bad `max` the max message; every error is a BadRequestError carrying one of the six messages |
| PublicBranch.PwdCheckAccepts | src/branches/public.php:156-184 | accepted exactly when the password is non-empty, the email is empty or matches, the banned words are empty or accepted, `min` is unset or an int in [8, 32], and `max` is unset or an int in [32, 100] |
| PublicBranch.PwdPasswordCheckedFirst | src/branches/public.php:157 | an `empty` password is rejected with the password message, whatever else the data holds |
| PublicBranch.PwdAcceptedBounds | src/branches/public.php:156-189 | accepted data has a truthy password, a matching email when one is given, an int `min` in [8, 32] and an int `max` in [32, 100] when given, so `min <= max` |
| PublicBranch.QueryParamsKeys | src/branches/public.php:159-188 | the query holds the password, plus `email`, `bannedWords`, `min` and `max` each exactly when the caller gave it, and nothing else |
| PublicBranch.QueryParamsValues | src/branches/public.php:159-188 | the password, the email and the bounds are sent as given, and the banned words as checked |
| PublicBranch.IsValidPwd | src/branches/public.php:156-189 | builds the query step by step: it fails exactly when the ordered checks do, with the same error, and on success it returns the query those two lemmas describe |
| PrivateBranch.AnyKeyExistsMeansPresent | src/branches/private.php:69-70 | the `array_reduce` fold is true exactly when the carry is true or some listed key exists in the data |
| PrivateBranch.IsValidData | src/branches/private.php:68-71 | rejected exactly when none of email, phone, domain, creditCard, ip and wallet is a key of the data |
| PrivateBranch.NullCountsAsPresent | src/branches/private.php:70 | a data key holding null still satisfies the presence check |
| PrivateBranch.FirstUnset | src/branches/private.php:91-94 | every field before the returned position is set, and the field at it is not |
| PrivateBranch.RequireFields | src/branches/private.php:91-94 | the sequential `isset` checks pass exactly when every field is set, and a failure names a field that is missing |
| PrivateBranch.SendEmail | src/branches/private.php:90-95 | accepted exactly when from, to, subject and html are all set, with the data sent unchanged; a rejection carries the first missing field's message |
| PrivateBranch.SendEmailFirstMissing | src/branches/private.php:91-92 | with `from` set and `to` missing, the error is the recipient message |
| PrivateBranch.OutOfRange | src/branches/private.php:141-142 | a bound fails the range test when it is loosely below -1000000000 or loosely above 1000000000 |
| PrivateBranch.GetRandom | src/branches/private.php:134-142 | the email fields are checked first, with their own messages; then a missing bound gives the both-bounds message, a loose `min >= max` the ordering message, and a bound out of range its own range message, `min` before `max`; every error is a BadRequestError; an accepted request has both bounds set and is sent unchanged |
| PrivateBranch.OutOfRangeIntLike | src/branches/private.php:141-142 | an int or integer numeric bound fails the range test exactly when its integer is outside [-1000000000, 1000000000] |
| PrivateBranch.GetRandomNumericBounds | src/branches/private.php:139-142 | with int or integer numeric bounds, accepted exactly when -1000000000 <= min < max <= 1000000000, for any `other` |
| PrivateBranch.GetRandomAccepted | src/branches/private.php:139-142 | in an accepted request an integer-like bound is in range, and two integer-like bounds are ordered; nothing more is promised about other bounds |
| PrivateBranch.GetRandomAcceptsNumericStrings | src/branches/private.php:140-142 | min `"1"` with max `"10"` is accepted |
| PrivateBranch.WordInRange | src/branches/private.php:141-142 | a word of `0` and a non-number character lies between `"-1000000000"` and `"1000000000"` byte by byte, so it passes the range test |
| PrivateBranch.WordOrder | src/branches/private.php:140 | a non-numeric `min` that is above `max` byte by byte passes the ordering test |
| PrivateBranch.WordBounds | src/branches/private.php:140-142 | two such words ordered by their second character pass the ordering test and both range tests |
| PrivateBranch.GetRandomAcceptsWords | src/branches/private.php:139-142 | data whose bounds are two such words, `"0x"` and `"0y"` among them, is accepted and sent |
| PrivateBranch.GetRandomAcceptsTrue | src/branches/private.php:139-142 | min `0` with max `true` is accepted, the bool making both comparisons bool comparisons |
| PrivateBranch.GetRandomOrderFirst | src/branches/private.php:140-141 | the ordering check precedes the range checks: min 2000000000 with max 1 gives the ordering error |
| PrivateBranch.IntendedBounds | src/branches/private.php:140-142 | the bound checks as the messages describe them pass exactly when both bounds are integer-like and -1000000000 <= min < max <= 1000000000 |
| PrivateBranch.GetRandomIntended | src/branches/private.php:134-142 | the corrected check accepts exactly when the email fields are set and the bounds are integer-like, in range and ordered |
| PrivateBranch.GetRandomIntendedAgrees | src/branches/private.php:134-142 | on integer-like bounds the corrected check and the check as written give the same result, error for error |
| DymoClient.BaseUrlFor | src/DymoAPI.php:32-34 | the local server is chosen exactly when `local` is truthy, the production URL exactly when it is not |
| DymoClient.TokenMap | src/DymoAPI.php:47-49 | a `root` token is sent exactly when the root key is truthy and a `private` token exactly when the API key is; each is `Bearer ` followed by the key |
| DymoClient.TokenMapEmpty | src/DymoAPI.php:47-50 | no request is prepared exactly when neither key is truthy |
| DymoClient.Rethrown | src/DymoAPI.php:57-58 | every failure is rethrown as an AuthenticationError whose message wraps the caught message |
| DymoClient.TokenCheck | src/DymoAPI.php:53-54 | the reply passes exactly when each configured key has its entry set; a failure is an AuthenticationError |
| DymoClient.RootRejectionMessage | src/DymoAPI.php:53-58 | a missing root entry is reported first, with the prefix twice in the message |
| DymoClient.PrivateRejectionMessage | src/DymoAPI.php:54-58 | a missing private entry, with the root check passed, gives the private-token message with the prefix twice |
| DymoClient.FalseEntryPasses | src/DymoAPI.php:53 | an entry of `false` satisfies the check |
| DymoClient.AcceptedReplyIsTruthy | src/DymoAPI.php:46-55 | a reply that passes for at least one configured key is truthy, so storing it enables the cache |
| DymoClient.RefreshWindow | src/DymoAPI.php:46 | after a success at time t, the cache is used at time n exactly when n < t + 300 |
| DymoClient.RenameIpFields | src/DymoAPI.php:75-80 | when `ip.as` is set, `as` and `class` become `_as` and `_class` (a missing class reads as null) and every other key keeps its value; otherwise the response is unchanged; afterwards `ip.as` is never set |
| DymoClient.RenameIpFieldsIdempotent | src/DymoAPI.php:75-80 | renaming twice is renaming once |
| DymoClient.CallSendEmail | src/branches/private.php:90 | a call that gives `send_email` fewer than two arguments raises ArgumentCountError; otherwise it is the function's own checks applied to the data |
| DymoClient.Client.constructor | src/DymoAPI.php:18-27 | every setting is read with `?? null` (`local` with `?? false`), the cache starts empty, and the base URL follows `local` |
| DymoClient.IsFresh | src/DymoAPI.php:46 | the cache is used when a reply is stored, a fetch time is recorded and fewer than 300 seconds have passed |
| DymoClient.Client.SetBaseUrl | src/DymoAPI.php:32-34 | sets only the base URL, to the one `local` selects |
| DymoClient.Client.GetFunction | src/DymoAPI.php:36-41 | fails with the private-token error exactly for the private module when the API key is null |
| DymoClient.Client.InitializeTokens | src/DymoAPI.php:44-60 | no request while the cache is fresh or when no key is configured; otherwise it sends the token map, and it updates the reply and the time only when the check passes, leaving the cache fresh |
| DymoClient.Client.SendEmailAsWritten | src/DymoAPI.php:84-86 | the email-settings guard comes first, then the private-token guard; past both, the one-argument call raises ArgumentCountError |
| DymoClient.Client.SendEmail | src/DymoAPI.php:84-86 | the same guards, then the email succeeds exactly when its four fields are set, sending the data with `serverEmailConfig` added |
| DymoClient.SendEmailAsWrittenNeverSends | src/DymoAPI.php:86 | the method as written never returns a response |
| DymoClient.EmptyApiKeyPassesGuardUnvalidated | src/DymoAPI.php:29-49 | an API key of `""` passes the not-null guard, yet it is falsy, so it is never sent for validation |
| DymoClient.NewClient | src/DymoAPI.php:18-30 | construction posts the tokens exactly when the API key is truthy, since a fresh cache is never fresh; the constructor throws the check's error, and the cache is filled only on success |
| DymoClient.ValidateTwice | src/DymoAPI.php:44-46 | were `initializeTokens` called twice less than 300 seconds apart, the first raising nothing, at most one call would send a request; the class itself makes only the constructor's call |

## Left out

- The HTTP layer is not modelled: cURL, the JSON encoding and decoding, `postRequest`, status codes and the APIError raised for transport failures. The reply of the validation endpoint is a parameter.
- `urlencode` and `http_build_query` are not modelled. The parameters hold the values before encoding.
- `file_exists` and `require_once` in `getFunction` are not modelled. The module files always exist, so the "Module not found" exception never occurs.
- `trigger_error` (the deprecation notice in `satinizer`) is not modelled. It does not affect the result.
- `src/response_models.php` and `src/config.php` are not part of this model. They are wrappers around the response and a URL constant.
- Floats are not modelled. Neither is the key order of PHP arrays.
- PrivateBranch.GetRandom: comparisons PHP makes in floating point (a bound such as `"1.5"` or `"1e3"` against a number or a numeric string) and comparisons of two array bounds are not computed. Their outcome is the parameter `other`, and each lemma about `GetRandom` holds for every `other`.
- PrivateBranch.GetRandom: numeric strings beyond the 64-bit range compare by their exact value. PHP turns them into floats, and compares two that overflow on the same side as strings. Such a bound fails a check either way, so only which error is reported can differ.
- PHP ints are 64 bits wide; `Int` is unbounded. No check computes with the values, so no wrap-around arises.
- PublicBranch.NewUrlEncrypt and PublicBranch.PwdCheck: an array `url` or `email` is rejected with the check's BadRequestError. PHP 7 also rejects it, because `strpos` and `preg_match` warn and return null on an array. PHP 8 raises a TypeError instead, which the model does not have.
- PublicBranch.QueryParams: the `bannedWords` entry holds the checked list. The source sends `implode(",", array_map('urlencode', …))` of it, a comma-joined string, which is not modelled because `urlencode` is not.
- PublicBranch.Satinizer: under PHP 8, `urlencode` (src/branches/public.php:76) raises a TypeError for an array input. The model accepts a set array input and returns it as what is sent.
- PublicBranch.Satinize: under PHP 8, `urlencode` (src/branches/public.php:123) raises a TypeError for a non-empty array input. The model accepts it and returns it as what is sent.
- PublicBranch.IsValidPwd: under PHP 8, `urlencode` raises a TypeError for an array password or an array element of `bannedWords`. The model accepts both and returns the query.
- DymoClient.Client.InitializeTokens: the clock is the `now` parameter. A transport failure inside the `try` is not modelled separately from a reply that fails the check.
- The wrappers `getRandom` and `isValidData` make the same one-argument call into the private branch as `sendEmail`; only `sendEmail`'s call is modelled. `is_valid_data` sends no request and returns nothing, so the renaming in `isValidData` is modelled on its own, as a function of the response.
- The public wrappers `getPrayerTimes`, `satinizer`, `isValidPwd` and `newUrlEncrypt` only forward to the branch functions, so they are not modelled separately.

## Findings

| source | as written | input that shows it | evidently intended | confidence | as-written member | corrected member |
|---|---|---|---|---|---|---|
| src/DymoAPI.php:86 | `send_email(token, data)` is called with the merged data as its only argument | any data, with `server_email_config` set and an API key configured: PHP raises ArgumentCountError before any check | `send_email($this->apiKey, $data)`, so the email fields are checked and the email is sent | not executed | DymoClient.SendEmailAsWrittenNeverSends | DymoClient.Client.SendEmail |
| src/branches/public.php:164 | the email pattern ends in `$` without the `D` modifier, and `$` also matches before a final newline | `"ab@cd.ef\n"` passes the email check and is sent | `$` only at the very end (`/D` or `\z`), so no address with a newline passes | not executed | EmailPattern.TrailingNewlineAccepted | EmailPattern.StrictShapeNoNewline |
| src/branches/private.php:140-142 | the bounds are only compared with PHP's loose `>=`, `<` and `>`, never checked to be integers | min `"0x"` with max `"0y"`, or min `0` with max `true`, passes every check and is sent | a bound that is not an integer is rejected, as the messages say | not executed | PrivateBranch.GetRandomAcceptsWords | PrivateBranch.GetRandomIntended |

The corrected members of the last two rows are proved beside the code as written: `StrictEmailShape` is the pattern with `$` at the very end, and `StrictShapeNoNewline` proves that it admits no newline. `GetRandomIntended` is the bound check the messages describe, and `GetRandomIntendedAgrees` proves that it differs from the code only on bounds that are not integers. The password check and `GetRandom` themselves keep the behaviour of the code as written.
