/**
 * The string helpers of the library module: the tracking-id generator, the upload
 * filename filter and the client-address lookup.  The clock and the random number
 * source are parameters.
 */
module Utils {
  import opened Wrappers
  import opened Text
  import Seqs

  // ---------------------------------------------------------------------------
  // Base 36, as `Number.prototype.toString(36)` writes a non-negative integer
  // ---------------------------------------------------------------------------

  predicate IsLowerBase36(c: char) {
    '0' <= c <= '9' || 'a' <= c <= 'z'
  }

  predicate IsUpperBase36(c: char) {
    '0' <= c <= '9' || 'A' <= c <= 'Z'
  }

  function Base36Digit(d: nat): (c: char)
    requires d < 36
    ensures IsLowerBase36(c)
  {
    if d < 10 then ('0' as int + d) as char else ('a' as int + d - 10) as char
  }

  /** The value of one base-36 digit, in either case. */
  function DigitValue(c: char): (r: Option<nat>)
    ensures r.Some? ==> r.value < 36
  {
    if '0' <= c <= '9' then Some(c as int - '0' as int)
    else if 'a' <= c <= 'z' then Some(c as int - 'a' as int + 10)
    else if 'A' <= c <= 'Z' then Some(c as int - 'A' as int + 10)
    else None
  }

  /** `n.toString(36)`: most significant digit first, lower-case, no leading zeros. */
  function ToBase36(n: nat): (r: string)
    ensures |r| >= 1
    ensures forall k :: 0 <= k < |r| ==> IsLowerBase36(r[k])
    ensures |r| > 1 ==> r[0] != '0'
  {
    if n < 36 then [Base36Digit(n)] else ToBase36(n / 36) + [Base36Digit(n % 36)]
  }

  /** Reads a non-empty string of base-36 digits (either case). */
  function FromBase36(s: string): Option<nat>
    decreases |s|
  {
    if s == [] then None
    else match DigitValue(s[|s| - 1])
      case None => None
      case Some(d) =>
        if |s| == 1 then Some(d)
        else match FromBase36(s[..|s| - 1])
          case None => None
          case Some(v) => Some(v * 36 + d)
  }

  lemma DigitRoundTrip(d: nat)
    requires d < 36
    ensures DigitValue(Base36Digit(d)) == Some(d)
    ensures DigitValue(UpperChar(Base36Digit(d))) == Some(d)
    ensures IsUpperBase36(UpperChar(Base36Digit(d)))
  {
  }

  /** Appending a digit multiplies the value read so far by 36 and adds the digit. */
  lemma FromBase36Append(s: string, c: char)
    requires FromBase36(s).Some? && DigitValue(c).Some?
    ensures FromBase36(s + [c]) == Some(FromBase36(s).value * 36 + DigitValue(c).value)
  {
    var t := s + [c];
    assert t[..|t| - 1] == s;
  }

  /** Reading back the upper-cased base-36 text gives the number. */
  lemma {:induction false} Base36RoundTrip(n: nat)
    ensures FromBase36(Upper(ToBase36(n))) == Some(n)
  {
    if n < 36 {
      DigitRoundTrip(n);
      assert Upper([Base36Digit(n)]) == [UpperChar(Base36Digit(n))];
    } else {
      var prefix := ToBase36(n / 36);
      assert ToBase36(n) == prefix + [Base36Digit(n % 36)];
      Base36RoundTrip(n / 36);
      AppendDigitRoundTrip(prefix, n / 36, n % 36);
    }
  }

  /** One more digit on the text is one more base-36 place on the value. */
  lemma AppendDigitRoundTrip(prefix: string, q: nat, d: nat)
    requires d < 36 && FromBase36(Upper(prefix)) == Some(q)
    ensures FromBase36(Upper(prefix + [Base36Digit(d)])) == Some(q * 36 + d)
  {
    var c := Base36Digit(d);
    UpperConcat(prefix, [c]);
    assert Upper([c]) == [UpperChar(c)];
    DigitRoundTrip(d);
    FromBase36Append(Upper(prefix), UpperChar(c));
  }

  // ---------------------------------------------------------------------------
  // generateApplicationId
  // ---------------------------------------------------------------------------

  /** `s.substr(start, length)` for non-negative arguments. */
  function Substr(s: string, start: nat, length: nat): (r: string)
    ensures |r| <= length
    ensures start <= |s| ==> |r| <= |s| - start && r == s[start..start + |r|]
    ensures start + length <= |s| ==> |r| == length
    ensures start + length > |s| ==> r == s[Min(start, |s|)..]
  {
    s[Min(start, |s|)..Min(start + length, |s|)]
  }

  function Min(a: int, b: int): int {
    if a <= b then a else b
  }

  /** What `Math.random().toString(36)` can print for a number in [0, 1): "0", or "0."
      followed by base-36 digits. */
  predicate RandomText(t: string) {
    t == "0" || (|t| >= 2 && t[0] == '0' && t[1] == '.' && forall k :: 2 <= k < |t| ==> IsLowerBase36(t[k]))
  }

  /** `WD-${Date.now().toString(36)}-${Math.random().toString(36).substr(2, 5)}`, upper-cased;
      `now` is the clock reading in milliseconds and `randomText` the random number's text. */
  function GenerateApplicationId(now: nat, randomText: string): string {
    Upper("WD-" + ToBase36(now) + "-" + Substr(randomText, 2, 5))
  }

  /** The id's shape: `WD-`, the time digits, `-`, at most five random digits; the two
      dashes are the only ones and every other character is an upper-case base-36 digit. */
  lemma ApplicationIdShape(now: nat, randomText: string)
    requires RandomText(randomText)
    ensures var id := GenerateApplicationId(now, randomText);
      && id[..3] == "WD-"
      && |ToBase36(now)| + 4 <= |id| <= |ToBase36(now)| + 9
      && (forall k :: 0 <= k < |id| ==> (id[k] == '-' <==> k == 2 || k == 3 + |ToBase36(now)|))
      && (forall k :: 0 <= k < |id| && id[k] != '-' ==> IsUpperBase36(id[k]))
  {
    var t := ToBase36(now);
    var tail := Substr(randomText, 2, 5);
    var raw := "WD-" + t + "-" + tail;
    var id := Upper(raw);
    assert forall k :: 0 <= k < |tail| ==> IsLowerBase36(tail[k]) by {
      if |randomText| >= 2 {
        assert forall k :: 0 <= k < |tail| ==> tail[k] == randomText[2 + k];
      }
    }
    forall k | 0 <= k < |id|
      ensures (id[k] == '-' <==> k == 2 || k == 3 + |t|)
      ensures id[k] != '-' ==> IsUpperBase36(id[k])
    {
      if 3 <= k < 3 + |t| {
        assert raw[k] == t[k - 3];
      } else if k > 3 + |t| {
        assert raw[k] == tail[k - 4 - |t|];
      }
    }
  }

  /** The clock reading written into an id: the base-36 text between the first two dashes. */
  function TimestampOf(id: string): Option<nat> {
    if |id| >= 3 && id[..3] == "WD-" then FromBase36(FirstSegment(id[3..], '-')) else None
  }

  /** The time segment of a generated id decodes back to the clock reading. */
  lemma TimestampRoundTrip(now: nat, randomText: string)
    ensures TimestampOf(GenerateApplicationId(now, randomText)) == Some(now)
  {
    var t := ToBase36(now);
    var tail := Substr(randomText, 2, 5);
    IdLayout(t, tail);
    NoDashInBase36(t);
    TimestampOfLayout(Upper(t), Upper(tail));
    Base36RoundTrip(now);
  }

  /** The text between `WD-` and the next dash is what `TimestampOf` reads. */
  lemma TimestampOfLayout(time: string, rest: string)
    requires '-' !in time
    ensures TimestampOf("WD-" + time + ['-'] + rest) == FromBase36(time)
  {
    var id := "WD-" + time + ['-'] + rest;
    assert id[..3] == "WD-";
    assert id[3..] == time + ['-'] + rest;
    FirstSegmentUpTo(time, '-', rest);
  }

  /** Upper-casing the id is upper-casing its pieces; the fixed parts are unchanged. */
  lemma IdLayout(t: string, tail: string)
    ensures Upper("WD-" + t + "-" + tail) == "WD-" + Upper(t) + ['-'] + Upper(tail)
  {
    UpperConcat("WD-" + t + "-", tail);
    UpperConcat("WD-" + t, "-");
    UpperConcat("WD-", t);
    assert Upper("WD-") == "WD-";
    assert Upper("-") == ['-'];
  }

  lemma NoDashInBase36(t: string)
    requires forall k :: 0 <= k < |t| ==> IsLowerBase36(t[k])
    ensures '-' !in Upper(t)
  {
    forall k | 0 <= k < |t| ensures Upper(t)[k] != '-' {
      assert IsLowerBase36(t[k]);
    }
  }

  // ---------------------------------------------------------------------------
  // sanitizeFilename
  // ---------------------------------------------------------------------------

  /** The characters `/[^a-zA-Z0-9.\-_가-힣]/g` leaves in place. */
  predicate AllowedChar(c: char) {
    || 'a' <= c <= 'z' || 'A' <= c <= 'Z' || '0' <= c <= '9'
    || c == '.' || c == '-' || c == '_'
    || '\U{AC00}' <= c <= '\U{D7A3}'
  }

  predicate AllAllowed(s: string) {
    forall k :: 0 <= k < |s| ==> AllowedChar(s[k])
  }

  /** `s.replace(/[^a-zA-Z0-9.\-_가-힣]/g, '')`. */
  function KeepAllowed(s: string): (r: string)
    ensures AllAllowed(r)
    ensures Seqs.IsSubsequence(r, s)
    ensures AllAllowed(s) ==> r == s
    ensures |r| <= |s|
  {
    if s == [] then []
    else if AllowedChar(s[0]) then
      var rest := KeepAllowed(s[1..]);
      assert ([s[0]] + rest)[1..] == rest;
      [s[0]] + rest
    else
      var rest := KeepAllowed(s[1..]);
      assert Seqs.IsSubsequence(rest, s) by { Seqs.SubsequenceDropHead(rest, s); }
      rest
  }

  /** `sanitizeFilename(name)`: drop every disallowed character, then keep the first 100. */
  function SanitizeFilename(name: string): (r: string)
    ensures |r| <= 100 && JsLength(r) == |r|
    ensures AllAllowed(r) && '/' !in r && '\\' !in r
    ensures |r| <= |KeepAllowed(name)| && r == KeepAllowed(name)[..|r|]
    ensures |KeepAllowed(name)| <= 100 ==> r == KeepAllowed(name)
  {
    var kept := KeepAllowed(name);
    var r := kept[..Min(100, |kept|)];
    JsLengthOfBmp(r);
    r
  }

  /** A name already made of allowed characters and at most 100 long is kept as it is. */
  lemma SanitizeKeepsCleanNames(name: string)
    requires AllAllowed(name) && |name| <= 100
    ensures SanitizeFilename(name) == name
  {
  }

  /** Sanitising twice is sanitising once. */
  lemma SanitizeIdempotent(name: string)
    ensures SanitizeFilename(SanitizeFilename(name)) == SanitizeFilename(name)
  {
    SanitizeKeepsCleanNames(SanitizeFilename(name));
  }

  // ---------------------------------------------------------------------------
  // getClientIP
  // ---------------------------------------------------------------------------

  /** A header value is truthy when present and non-empty. */
  predicate Truthy(h: Option<string>) {
    h.Some? && h.value != ""
  }

  /** `getClientIP`: the first `x-forwarded-for` entry, trimmed; else `x-real-ip`; else "unknown". */
  function GetClientIP(forwardedFor: Option<string>, realIP: Option<string>): (ip: string)
    ensures Truthy(forwardedFor) ==>
      && ',' !in ip
      && exists i :: 0 <= i <= |forwardedFor.value| && ip == Trim(forwardedFor.value[..i])
                     && (i == |forwardedFor.value| || forwardedFor.value[i] == ',')
                     && ',' !in forwardedFor.value[..i]
    ensures !Truthy(forwardedFor) && Truthy(realIP) ==> ip == realIP.value
    ensures !Truthy(forwardedFor) && !Truthy(realIP) ==> ip == "unknown"
  {
    if Truthy(forwardedFor) then
      var first := FirstSegment(forwardedFor.value, ',');
      NoCommaInTrimmedSegment(forwardedFor.value);
      assert forwardedFor.value[..|first|] == first;
      Trim(first)
    else if Truthy(realIP) then realIP.value
    else "unknown"
  }

  /** The first segment has no comma, and trimming only removes characters. */
  lemma NoCommaInTrimmedSegment(s: string)
    ensures ',' !in Trim(FirstSegment(s, ','))
  {
    TrimAddsNothing(FirstSegment(s, ','), ',');
  }
}
