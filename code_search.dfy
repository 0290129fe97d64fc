/**
 * The airport code tables and their search: IATA and ICAO codes are kept in buckets keyed by a
 * code's first character; a code is valid when its bucket holds it, and the search endpoints
 * answer with the codes of the term's bucket that start with the term, ignoring case.
 */
module CodeSearch {
  import opened Common

  /** The two code systems; they differ only in the file-name prefix of their tables. */
  datatype Kind = Iata | Icao

  function Prefix(kind: Kind): string
  {
    match kind
    case Iata => "iata_"
    case Icao => "icao_"
  }

  /** The code tables: a bucket of codes per first character. */
  type Table = map<char, seq<string>>

  /** isValidCode: '' is valid; any other value is valid when the bucket of its first character holds it exactly. */
  predicate IsValidCode(table: Table, value: string)
  {
    value == "" || (value[0] in table && value in table[value[0]])
  }

  /** The codes of a bucket whose upper-case form starts with the term, in bucket order. */
  function Matching(bucket: seq<string>, term: string): (r: seq<string>)
    ensures |r| <= |bucket|
    ensures forall c :: c in r <==> c in bucket && StartsWith(ToUpper(c), term)
  {
    if |bucket| == 0 then []
    else
      var rest := Matching(bucket[1..], term);
      assert forall c :: c in bucket <==> c == bucket[0] || c in bucket[1..];
      if StartsWith(ToUpper(bucket[0]), term) then [bucket[0]] + rest else rest
  }

  /** Filtering keeps the order of the bucket: the matches of a concatenation are the matches of each part, in turn. */
  lemma {:induction false} MatchingConcat(a: seq<string>, b: seq<string>, term: string)
    ensures Matching(a + b, term) == Matching(a, term) + Matching(b, term)
  {
    if |a| == 0 {
      assert a + b == b;
    } else {
      assert (a + b)[0] == a[0];
      assert (a + b)[1..] == a[1..] + b;
      MatchingConcat(a[1..], b, term);
    }
  }

  /** The search term: the query's code in upper case when it is set and not empty. */
  function SearchTerm(code: Option<string>): (r: Option<string>)
    ensures Truthy(code) ==> r == Some(ToUpper(code.value))
    ensures !Truthy(code) ==> r == code
  {
    if Truthy(code) then Some(ToUpper(code.value)) else code
  }

  /**
   * The options the search endpoint answers with: none unless the term has at least two
   * characters and its first character has a bucket; otherwise the bucket's matching codes.
   */
  function Options(table: Table, code: Option<string>): (r: seq<string>)
    ensures var term := SearchTerm(code);
      !(Truthy(term) && |term.value| > 1 && term.value[0] in table) ==> r == []
    ensures var term := SearchTerm(code);
      Truthy(term) && |term.value| > 1 && term.value[0] in table ==> r == Matching(table[term.value[0]], term.value)
  {
    var term := SearchTerm(code);
    if Truthy(term) && |term.value| > 1 && term.value[0] in table then Matching(table[term.value[0]], term.value) else []
  }

  /** Upper-casing twice upper-cases nothing more. */
  lemma ToUpperTwice(s: string)
    ensures ToUpper(ToUpper(s)) == ToUpper(s)
  {
  }

  /** The search ignores case: a term and its upper-case form find the same codes. */
  lemma SearchIgnoresCase(table: Table, code: string)
    ensures Options(table, Some(code)) == Options(table, Some(ToUpper(code)))
  {
    ToUpperTwice(code);
  }

  /** Every code is filed in the bucket of its first character, in upper case. */
  predicate WellFiled(table: Table)
  {
    forall k, c :: k in table && c in table[k] ==> c != "" && c[0] == k && ToUpper(c) == c
  }

  /** Every code the search offers from well-filed tables is a valid code. */
  lemma OptionsAreValid(table: Table, code: Option<string>, c: string)
    requires WellFiled(table)
    requires c in Options(table, code)
    ensures IsValidCode(table, c)
  {
    var term := SearchTerm(code).value;
    assert c in table[term[0]];
  }

  /**
   * Round trip: searching for a valid code of at least two characters, in upper or lower case,
   * offers it.
   */
  lemma ValidCodeIsFound(table: Table, c: string)
    requires WellFiled(table)
    requires |c| > 1 && IsValidCode(table, c)
    ensures c in Options(table, Some(c))
    ensures c in Options(table, Some(ToLower(c)))
  {
    assert ToUpper(c) == c;
    assert StartsWith(ToUpper(c), c);
    assert ToUpper(ToLower(c)) == c by {
      forall k | 0 <= k < |c| ensures ToUpper(ToLower(c))[k] == c[k] {
        assert UpperChar(c[k]) == c[k] by {
          assert ToUpper(c)[k] == UpperChar(c[k]);
        }
      }
    }
  }

  /** A character JSON.stringify writes as it is: neither a quote, a backslash nor a control character. */
  predicate JsonPlain(c: char)
  {
    c != '"' && c != '\\' && c >= ' '
  }

  /** JSON text of a string; a code of plain characters is quoted as it is. */
  function JsonString(s: string): (r: string)
    ensures (forall k :: 0 <= k < |s| ==> JsonPlain(s[k])) ==> r == "\"" + s + "\""
  {
    "\"" + Escaped(s) + "\""
  }

  /** A lower-case hexadecimal digit, as JSON.stringify writes a \u escape. */
  function LowerHex(d: nat): char
    requires d < 16
  {
    if d < 10 then ('0' as int + d) as char else ('a' as int + d - 10) as char
  }

  /**
   * JSON.stringify's escape of one character: a backslash before a quote or a backslash, the
   * short escapes for backspace, tab, new line, form feed and carriage return, \u00XX for any other
   * control character, and the character itself otherwise.
   */
  function EscapedChar(c: char): (r: string)
    ensures JsonPlain(c) <==> r == [c]
    ensures !JsonPlain(c) ==> |r| >= 2 && r[0] == '\\'
  {
    if c == '"' || c == '\\' then ['\\', c]
    else if c == 8 as char then "\\b"
    else if c == '\t' then "\\t"
    else if c == '\n' then "\\n"
    else if c == 12 as char then "\\f"
    else if c == '\r' then "\\r"
    else if c < ' ' then ['\\', 'u', '0', '0', LowerHex(c as int / 16), LowerHex(c as int % 16)]
    else [c]
  }

  function Escaped(s: string): (r: string)
    ensures (forall k :: 0 <= k < |s| ==> JsonPlain(s[k])) ==> r == s
    ensures |r| >= |s|
  {
    if s == [] then [] else EscapedChar(s[0]) + Escaped(s[1..])
  }

  function JsonList(items: seq<string>): string
  {
    if |items| == 0 then "" else if |items| == 1 then JsonString(items[0]) else JsonString(items[0]) + "," + JsonList(items[1..])
  }

  /** The body the search endpoints send: the JSON of {options}. */
  function Response(options: seq<string>): (r: string)
    ensures options == [] ==> r == "{\"options\":[]}"
  {
    "{\"options\":[" + JsonList(options) + "]}"
  }

  /** A term shorter than two characters (or none) is answered with no options. */
  lemma ShortTermNoOptions(table: Table, code: Option<string>)
    requires code.None? || |code.value| < 2
    ensures Response(Options(table, code)) == "{\"options\":[]}"
  {
  }

  /**
   * The bucket key a table file gives: the character right after the first '<kind>_' in its
   * path; a path without one makes the loading throw.
   */
  function BucketKey(path: string, kind: Kind): (r: Option<char>)
    ensures r.Some? ==>
      IndexOf(path, Prefix(kind)) != -1 && IndexOf(path, Prefix(kind)) + 5 < |path|
      && r.value == path[IndexOf(path, Prefix(kind)) + 5]
    ensures r.None? ==> IndexOf(path, Prefix(kind)) == -1 || IndexOf(path, Prefix(kind)) + 5 == |path|
  {
    var i := IndexOf(path, Prefix(kind));
    if i == -1 || i + 5 >= |path| then None else Some(path[i + 5])
  }

  /**
   * A table file '<dir>/<kind>_<c>...' gives the key c, when the directory holds no '<kind>_'.
   */
  lemma {:induction false} FileKey(dir: string, kind: Kind, c: char, rest: string)
    requires !Includes(dir + "/", Prefix(kind))
    ensures BucketKey(dir + "/" + Prefix(kind) + [c] + rest, kind) == Some(c)
  {
    var d := dir + "/";
    var p := Prefix(kind);
    var s := d + p + [c] + rest;
    assert OccursAt(s, p, |d|) by {
      assert s[|d|..|d| + 5] == p;
    }
    forall j | 0 <= j < |d| ensures !OccursAt(s, p, j) {
      if j + 5 <= |d| {
        assert !OccursAt(d, p, j);
        assert s[j..j + 5] == d[j..j + 5];
      } else {
        assert s[|d| - 1] == '/';
        assert p[|d| - 1 - j] != '/';
      }
    }
    assert IndexOf(s, p) == |d|;
    assert s[|d| + 5] == c;
  }

  /** Every table file's name gives a bucket key. */
  predicate AllKeyed(files: seq<(string, seq<string>)>, kind: Kind)
  {
    forall i :: 0 <= i < |files| ==> BucketKey(files[i].0, kind).Some?
  }

  /** The files as (key, codes) pairs, once every name gives a key. */
  function Keyed(files: seq<(string, seq<string>)>, kind: Kind): (r: seq<(char, seq<string>)>)
    requires AllKeyed(files, kind)
    ensures |r| == |files|
    ensures forall i :: 0 <= i < |files| ==> r[i] == (BucketKey(files[i].0, kind).value, files[i].1)
  {
    seq(|files|, i requires 0 <= i < |files| => (BucketKey(files[i].0, kind).value, files[i].1))
  }

  /** Filing (key, codes) pairs in turn, a later pair replacing an earlier one with the same key. */
  function Fill(entries: seq<(char, seq<string>)>): (r: Table)
    ensures |entries| > 0 ==> entries[|entries| - 1].0 in r && r[entries[|entries| - 1].0] == entries[|entries| - 1].1
  {
    if |entries| == 0 then map[]
    else Fill(entries[..|entries| - 1])[entries[|entries| - 1].0 := entries[|entries| - 1].1]
  }

  /** The filed table has a bucket for exactly the keys of the pairs. */
  lemma {:induction false} FillKeys(entries: seq<(char, seq<string>)>, k: char)
    ensures k in Fill(entries) <==> exists i :: 0 <= i < |entries| && entries[i].0 == k
  {
    if |entries| > 0 {
      var n := |entries| - 1;
      var front := entries[..n];
      FillKeys(front, k);
      if exists i :: 0 <= i < |entries| && entries[i].0 == k {
        var i :| 0 <= i < |entries| && entries[i].0 == k;
        if i < n {
          assert front[i].0 == k;
        }
      }
      if exists i :: 0 <= i < n && front[i].0 == k {
        var i :| 0 <= i < n && front[i].0 == k;
        assert entries[i].0 == k;
      }
    }
  }

  /** The bucket of a key holds the codes of the last pair with that key. */
  lemma {:induction false} FillLastWins(entries: seq<(char, seq<string>)>, i: nat)
    requires i < |entries|
    requires forall j :: i < j < |entries| ==> entries[j].0 != entries[i].0
    ensures entries[i].0 in Fill(entries) && Fill(entries)[entries[i].0] == entries[i].1
  {
    var n := |entries| - 1;
    if i < n {
      var front := entries[..n];
      FillLastWins(front, i);
    }
  }

  /**
   * Loading the tables: each file's codes become the bucket of its key, a later file with the same
   * key replacing an earlier one; nil (the loading throws) when a file name gives no key.
   */
  function Load(files: seq<(string, seq<string>)>, kind: Kind): (r: Option<Table>)
    ensures r.Some? <==> AllKeyed(files, kind)
    ensures r.Some? && |files| > 0 ==>
      var last := BucketKey(files[|files| - 1].0, kind).value;
      last in r.value && r.value[last] == files[|files| - 1].1
  {
    if AllKeyed(files, kind) then Some(Fill(Keyed(files, kind))) else None
  }

  /**
   * Each key's bucket holds the codes of the last file whose name gives that key: a file no later
   * file shares its key with keeps its codes.
   */
  lemma LoadLastWins(files: seq<(string, seq<string>)>, kind: Kind, i: nat)
    requires AllKeyed(files, kind) && i < |files|
    requires forall j :: i < j < |files| ==> BucketKey(files[j].0, kind) != BucketKey(files[i].0, kind)
    ensures var k := BucketKey(files[i].0, kind).value;
      k in Load(files, kind).value && Load(files, kind).value[k] == files[i].1
  {
    var entries := Keyed(files, kind);
    FillLastWins(entries, i);
  }

  /** The loaded tables have a bucket for exactly the keys the file names give. */
  lemma LoadKeys(files: seq<(string, seq<string>)>, kind: Kind, k: char)
    requires AllKeyed(files, kind)
    ensures k in Load(files, kind).value <==> exists i :: 0 <= i < |files| && BucketKey(files[i].0, kind) == Some(k)
  {
    var entries := Keyed(files, kind);
    FillKeys(entries, k);
    if exists i :: 0 <= i < |entries| && entries[i].0 == k {
      var i :| 0 <= i < |entries| && entries[i].0 == k;
      assert BucketKey(files[i].0, kind) == Some(k);
    }
  }
}
