/**
 * Values and string operations shared by the eGAR model: the nil-or-value wrapper, the JSON
 * scalars the workflow API returns, the JavaScript string methods the wizard relies on
 * (indexOf, includes, startsWith, split, replace, trim, case mapping), zero-padded number
 * formatting and calendar date-times ordered by their instant.
 */
module Common {

  /** A value that may be nil (JavaScript null or undefined). */
  datatype Option<+T> = None | Some(value: T)

  /** A value, or the message of the exception thrown instead. */
  datatype Outcome<T> = Done(value: T) | Thrown(message: string)

  /** A JSON scalar; a record whose field is nil simply lacks that key. */
  datatype Scalar = Str(s: string) | Bool(b: bool) | Num(n: int)

  /** A key of a JSON object: left out (undefined), null, or holding a value. */
  datatype Slot<T> = Absent | Null | Val(v: T)

  /** JavaScript truthiness of a scalar. */
  predicate ScalarTruthy(v: Scalar)
  {
    match v
    case Str(s) => s != ""
    case Bool(b) => b
    case Num(n) => n != 0
  }

  /** JavaScript truthiness of a string that may be nil. */
  predicate Truthy(o: Option<string>)
  {
    o.Some? && o.value != ""
  }

  /** `x || null` (or `x || undefined`) for a string that may be nil: kept when truthy, nil otherwise. */
  function OrNull(x: Option<string>): (r: Option<string>)
    ensures r.Some? <==> Truthy(x)
    ensures r.Some? ==> r == x
  {
    if Truthy(x) then x else None
  }

  /** `x || fallback` for a string that may be nil. */
  function OrElse(x: Option<string>, fallback: string): (r: string)
    ensures Truthy(x) ==> r == x.value
    ensures !Truthy(x) ==> r == fallback
  {
    if Truthy(x) then x.value else fallback
  }

  /** The value under a key, nil when the key is missing. */
  function Lookup<K, V>(m: map<K, V>, k: K): (r: Option<V>)
    ensures r.Some? <==> k in m
    ensures r.Some? ==> r.value == m[k]
  {
    if k in m then Some(m[k]) else None
  }

  /** `_.pickBy(m, v => !!v)` on string values: the entries whose value is not ''. */
  function PickTruthy<K(!new)>(m: map<K, string>): (r: map<K, string>)
    ensures forall k :: k in r <==> k in m && m[k] != ""
    ensures forall k :: k in r ==> r[k] == m[k]
  {
    map k | k in m && m[k] != "" :: m[k]
  }

  /** Boolean.prototype.toString */
  function BoolString(b: bool): (r: string)
    ensures r != ""
    ensures b ==> r == "true"
    ensures !b ==> r == "false"
  {
    if b then "true" else "false"
  }

  /**
   * A plain object holding form values, as the services receive it from the session; lodash's
   * mergeWith (with no customizer) writes into it in place.
   */
  class FormObject<K(==)> {
    var values: map<K, string>

    constructor (values: map<K, string>)
      ensures this.values == values
    {
      this.values := values;
    }

    /**
     * `_.mergeWith(this, form)`: every value the form defines overwrites this object's own, and
     * the keys the form leaves undefined keep theirs.
     */
    method MergeWith(form: map<K, string>)
      modifies this
      ensures forall k :: k in values <==> k in old(values) || k in form
      ensures forall k :: k in form ==> values[k] == form[k]
      ensures forall k :: k in old(values) && k !in form ==> values[k] == old(values)[k]
    {
      values := values + form;
    }
  }

  /** `sub` occurs in `s` starting at index `i`. */
  predicate OccursAt(s: string, sub: string, i: int)
  {
    0 <= i && i + |sub| <= |s| && s[i..i + |sub|] == sub
  }

  /** String.prototype.startsWith */
  predicate StartsWith(s: string, prefix: string)
  {
    OccursAt(s, prefix, 0)
  }

  /** String.prototype.indexOf, searching from index `from`: the first occurrence at or after it, or -1. */
  function IndexOfFrom(s: string, sub: string, from: nat): (r: int)
    ensures r == -1 || (from <= r && OccursAt(s, sub, r))
    ensures r == -1 ==> forall j :: from <= j ==> !OccursAt(s, sub, j)
    ensures r != -1 ==> forall j :: from <= j < r ==> !OccursAt(s, sub, j)
    decreases |s| - from
  {
    if from + |sub| > |s| then -1
    else if s[from..from + |sub|] == sub then from
    else IndexOfFrom(s, sub, from + 1)
  }

  /** String.prototype.indexOf: the first occurrence of `sub` in `s`, or -1. */
  function IndexOf(s: string, sub: string): (r: int)
    ensures r == -1 <==> forall j :: !OccursAt(s, sub, j)
    ensures r != -1 ==> OccursAt(s, sub, r) && forall j :: 0 <= j < r ==> !OccursAt(s, sub, j)
  {
    IndexOfFrom(s, sub, 0)
  }

  /** String.prototype.includes */
  predicate Includes(s: string, sub: string)
  {
    IndexOf(s, sub) != -1
  }

  /** String.prototype.split with a non-empty separator string. */
  function Split(s: string, sep: string): (parts: seq<string>)
    requires sep != []
    ensures |parts| >= 1
    ensures forall k :: 0 <= k < |parts| ==> !Includes(parts[k], sep)
    decreases |s|
  {
    var i := IndexOf(s, sep);
    if i == -1 then [s]
    else
      var head := s[..i];
      assert forall j :: !OccursAt(head, sep, j) by {
        forall j | OccursAt(head, sep, j) ensures false {
          assert s[j..j + |sep|] == head[j..j + |sep|];
          assert OccursAt(s, sep, j) && j < i;
        }
      }
      [head] + Split(s[i + |sep|..], sep)
  }

  /** A string none of whose characters is c holds no [c]. */
  lemma NoChar(s: string, c: char)
    requires forall k :: 0 <= k < |s| ==> s[k] != c
    ensures !Includes(s, [c])
  {
    forall j ensures !OccursAt(s, [c], j) {
      if 0 <= j < |s| {
        assert s[j..j + 1][0] == s[j];
      }
    }
  }

  /** The first occurrence of a character is just after a head that does not hold it. */
  lemma FirstOccurrence(head: string, c: char, rest: string)
    requires forall k :: 0 <= k < |head| ==> head[k] != c
    ensures IndexOf(head + [c] + rest, [c]) == |head|
  {
    var s := head + [c] + rest;
    assert OccursAt(s, [c], |head|) by {
      assert s[|head|..|head| + 1] == [c];
    }
    forall j | 0 <= j < |head| ensures !OccursAt(s, [c], j) {
      assert s[j..j + 1][0] == head[j];
    }
  }

  /** Array.prototype.join */
  function Join(parts: seq<string>, sep: string): string
  {
    if |parts| == 0 then ""
    else if |parts| == 1 then parts[0]
    else parts[0] + sep + Join(parts[1..], sep)
  }

  /** Splitting at a first occurrence: the text before it, then the split of the text after it. */
  lemma SplitAt(s: string, sep: string)
    requires sep != [] && IndexOf(s, sep) != -1
    ensures var i := IndexOf(s, sep);
      && Split(s, sep) == [s[..i]] + Split(s[i + |sep|..], sep)
      && s == s[..i] + sep + s[i + |sep|..]
  {
  }

  /** Joining a list with one more piece in front puts that piece and a separator first. */
  lemma JoinCons(head: string, parts: seq<string>, sep: string)
    requires |parts| >= 1
    ensures Join([head] + parts, sep) == head + sep + Join(parts, sep)
  {
    assert ([head] + parts)[1..] == parts;
  }

  /** Joining the pieces of a split with the same separator gives the original string back. */
  lemma {:induction false} JoinSplit(s: string, sep: string)
    requires sep != []
    ensures Join(Split(s, sep), sep) == s
    decreases |s|
  {
    var i := IndexOf(s, sep);
    if i != -1 {
      var rest := s[i + |sep|..];
      SplitAt(s, sep);
      JoinSplit(rest, sep);
      JoinCons(s[..i], Split(rest, sep), sep);
    }
  }

  lemma JoinThree(a: string, b: string, c: string, sep: string)
    ensures Join([a, b, c], sep) == a + sep + b + sep + c
  {
    var parts := [a, b, c];
    assert parts[1..][1..] == [c];
    assert Join(parts[1..], sep) == b + sep + c;
  }

  /** Splitting on a one-character separator that none of the pieces contains gives the pieces back. */
  lemma {:induction false} SplitJoin(parts: seq<string>, sep: string)
    requires |sep| == 1 && |parts| >= 1
    requires forall k :: 0 <= k < |parts| ==> !Includes(parts[k], sep)
    ensures Split(Join(parts, sep), sep) == parts
  {
    if |parts| > 1 {
      var p0 := parts[0];
      var rest := Join(parts[1..], sep);
      var s := p0 + sep + rest;
      assert Join(parts, sep) == s;
      assert OccursAt(s, sep, |p0|) by {
        assert s[|p0|..|p0| + 1] == sep;
      }
      forall j | 0 <= j < |p0|
        ensures !OccursAt(s, sep, j)
      {
        assert !OccursAt(p0, sep, j);
        assert s[j..j + 1] == p0[j..j + 1];
      }
      assert IndexOf(s, sep) == |p0|;
      assert s[..|p0|] == p0;
      assert s[|p0| + 1..] == rest;
      SplitJoin(parts[1..], sep);
    }
  }

  /** String.prototype.replace with a string pattern: only the first occurrence is replaced. */
  function ReplaceFirst(s: string, pattern: string, repl: string): (r: string)
    ensures IndexOf(s, pattern) == -1 ==> r == s
    ensures IndexOf(s, pattern) != -1 ==>
      r == s[..IndexOf(s, pattern)] + repl + s[IndexOf(s, pattern) + |pattern|..]
  {
    var i := IndexOf(s, pattern);
    if i == -1 then s else s[..i] + repl + s[i + |pattern|..]
  }

  /** Removing a prefix with replace leaves the rest of the string. */
  lemma ReplacePrefix(prefix: string, rest: string)
    requires prefix != []
    ensures ReplaceFirst(prefix + rest, prefix, "") == rest
  {
    assert OccursAt(prefix + rest, prefix, 0);
  }

  /** Whitespace removed by lodash's trim (the ASCII part of it). */
  predicate IsSpace(c: char)
  {
    c == ' ' || c == '\t' || c == '\n' || c == '\r' || c as int == 12 || c as int == 11
  }

  function TrimStart(s: string): (r: string)
    ensures |r| <= |s| && r == s[|s| - |r|..]
    ensures r == [] || !IsSpace(r[0])
    ensures forall k :: 0 <= k < |s| - |r| ==> IsSpace(s[k])
  {
    if s != [] && IsSpace(s[0]) then TrimStart(s[1..]) else s
  }

  function TrimEnd(s: string): (r: string)
    ensures |r| <= |s| && r == s[..|r|]
    ensures r == [] || !IsSpace(r[|r| - 1])
    ensures forall k :: |r| <= k < |s| ==> IsSpace(s[k])
  {
    if s != [] && IsSpace(s[|s| - 1]) then TrimEnd(s[..|s| - 1]) else s
  }

  /** lodash _.trim */
  function Trim(s: string): string
  {
    TrimEnd(TrimStart(s))
  }

  /** A trimmed string neither starts nor ends with whitespace. */
  lemma TrimmedEnds(s: string)
    ensures Trim(s) == [] || (!IsSpace(Trim(s)[0]) && !IsSpace(Trim(s)[|Trim(s)| - 1]))
  {
    var t := TrimStart(s);
    var r := TrimEnd(t);
    assert r != [] ==> r[0] == t[0];
  }

  /** A string with no whitespace at either end is its own trim. */
  lemma TrimUntouched(s: string)
    requires s == [] || (!IsSpace(s[0]) && !IsSpace(s[|s| - 1]))
    ensures Trim(s) == s
  {
    var t := TrimStart(s);
    assert t == s;
  }

  /** A string trims to nothing exactly when every character is whitespace. */
  lemma TrimEmpty(s: string)
    ensures Trim(s) == [] <==> forall k :: 0 <= k < |s| ==> IsSpace(s[k])
  {
    var t := TrimStart(s);
  }

  function UpperChar(c: char): char
  {
    if 'a' <= c <= 'z' then (c as int - 32) as char else c
  }

  function LowerChar(c: char): char
  {
    if 'A' <= c <= 'Z' then (c as int + 32) as char else c
  }

  /** Lower-casing twice lower-cases nothing more. */
  lemma ToLowerTwice(s: string)
    ensures ToLower(ToLower(s)) == ToLower(s)
  {
  }

  /** String.prototype.toUpperCase on ASCII letters. */
  function ToUpper(s: string): (r: string)
    ensures |r| == |s| && forall k :: 0 <= k < |s| ==> r[k] == UpperChar(s[k])
  {
    seq(|s|, k requires 0 <= k < |s| => UpperChar(s[k]))
  }

  /** String.prototype.toLowerCase on ASCII letters. */
  function ToLower(s: string): (r: string)
    ensures |r| == |s| && forall k :: 0 <= k < |s| ==> r[k] == LowerChar(s[k])
  {
    seq(|s|, k requires 0 <= k < |s| => LowerChar(s[k]))
  }

  /** lodash _.upperFirst */
  function UpperFirst(s: string): (r: string)
    ensures |r| == |s|
    ensures s != [] ==> r[0] == UpperChar(s[0]) && r[1..] == s[1..]
  {
    if s == [] then s else [UpperChar(s[0])] + s[1..]
  }

  function DigitChar(d: nat): char
    requires d < 10
  {
    ('0' as int + d) as char
  }

  /** The decimal digits of a natural number, without leading zeros. */
  function NatToString(n: nat): (r: string)
    ensures |r| >= 1
    ensures forall k :: 0 <= k < |r| ==> '0' <= r[k] <= '9'
    decreases n
  {
    if n < 10 then [DigitChar(n)] else NatToString(n / 10) + [DigitChar(n % 10)]
  }

  /** An integer as JavaScript prints it. */
  function IntToString(n: int): string
  {
    if n < 0 then "-" + NatToString(-n) else NatToString(n)
  }

  /** lodash _.padStart with a one-character pad. */
  function PadStart(s: string, width: nat, pad: char): (r: string)
    ensures |r| == if |s| < width then width else |s|
    ensures r[|r| - |s|..] == s
    ensures forall k :: 0 <= k < |r| - |s| ==> r[k] == pad
  {
    if |s| < width then seq(width - |s|, _ => pad) + s else s
  }

  /** A number printed with at least `width` digits, as moment's DD, MM, HH and YYYY tokens do. */
  function Digits(n: int, width: nat): string
  {
    if n < 0 then "-" + PadStart(NatToString(-n), width, '0') else PadStart(NatToString(n), width, '0')
  }

  /** A number below 100 padded to two digits is its tens digit then its units digit. */
  lemma TwoDigits(n: nat)
    requires n < 100
    ensures Digits(n, 2) == [DigitChar(n / 10), DigitChar(n % 10)]
  {
    if n >= 10 {
      assert NatToString(n) == NatToString(n / 10) + [DigitChar(n % 10)];
    }
  }

  /** A number from 100 to 999 needs no padding to two digits: its three digits in order. */
  lemma ThreeDigits(n: nat)
    requires 100 <= n < 1000
    ensures Digits(n, 2) == [DigitChar(n / 100), DigitChar(n / 10 % 10), DigitChar(n % 10)]
  {
    assert NatToString(n) == NatToString(n / 10) + [DigitChar(n % 10)];
    assert NatToString(n / 10) == NatToString(n / 100) + [DigitChar(n / 10 % 10)];
  }

  /** A calendar date and time of day (UTC), as moment parses an ISO-8601 string. */
  datatype DateTime = DateTime(year: int, month: int, day: int, hour: int, minute: int, second: int)
  {
    /** The fields moment accepts: a real calendar day, hours 0-23, minutes and seconds 0-59. */
    predicate Valid()
    {
      1 <= month <= 12 && 1 <= day <= DaysInMonth(year, month) && 0 <= hour < 24 && 0 <= minute < 60 && 0 <= second < 60
    }

    /** Seconds since 1970-01-01T00:00:00Z. */
    function Epoch(): int
    {
      DaysFromCivil(year, month, day) * 86400 + hour * 3600 + minute * 60 + second
    }
  }

  /** The Gregorian leap-year rule. */
  predicate IsLeapYear(year: int)
  {
    (year % 4 == 0 && year % 100 != 0) || year % 400 == 0
  }

  /** The length of a month (1 to 12) of a year, February having 29 days in a leap year. */
  function DaysInMonth(year: int, month: int): (r: int)
    requires 1 <= month <= 12
    ensures 28 <= r <= 31
    ensures month == 2 ==> (r == 29 <==> IsLeapYear(year))
  {
    if month == 2 then (if IsLeapYear(year) then 29 else 28)
    else if month == 4 || month == 6 || month == 9 || month == 11 then 30
    else 31
  }

  /** The number of days from 1970-01-01 to the given proleptic Gregorian date. */
  function DaysFromCivil(y: int, m: int, d: int): int
  {
    var y1 := if m <= 2 then y - 1 else y;
    var era := y1 / 400;
    var yoe := y1 - era * 400;
    var doy := (153 * (if m > 2 then m - 3 else m + 9) + 2) / 5 + d - 1;
    var doe := yoe * 365 + yoe / 4 - yoe / 100 + doy;
    era * 146097 + doe - 719468
  }
}
