/** The small part of JavaScript's runtime semantics that the application's
    pure logic relies on: optional JSON fields, truthiness and `||` chains,
    `Array.prototype.slice`, and `String.prototype.split` on one character. */
module Js {

  /** A JSON field that is either absent (`undefined` or `null`) or present. */
  datatype Option<+T> = None | Some(value: T)

  /** The outcome of a step that may `throw new Error(message)`. */
  datatype Result<+T> = Ok(value: T) | Err(message: string)

  /** JavaScript truthiness of an optional string field: present and non-empty. */
  predicate Truthy(o: Option<string>) {
    o.Some? && o.value != ""
  }

  /** Index `i` holds the first truthy field of `chain`. */
  predicate FirstTruthyAt(chain: seq<Option<string>>, i: int) {
    && 0 <= i < |chain|
    && Truthy(chain[i])
    && forall j :: 0 <= j < i ==> !Truthy(chain[j])
  }

  /** `r` is the value of `chain[0] || chain[1] || ... || ''`: the first
      non-empty present string, or the empty string when there is none. */
  ghost predicate IsFirstTruthy(chain: seq<Option<string>>, r: string) {
    || (r == "" && forall j :: 0 <= j < |chain| ==> !Truthy(chain[j]))
    || (exists i :: FirstTruthyAt(chain, i) && chain[i].value == r)
  }

  /** Evaluates the expression `chain[0] || chain[1] || ... || ''`. */
  function Or(chain: seq<Option<string>>): (r: string)
    ensures IsFirstTruthy(chain, r)
    ensures r != "" <==> exists j :: 0 <= j < |chain| && Truthy(chain[j])
  {
    if |chain| == 0 then ""
    else if Truthy(chain[0]) then
      assert FirstTruthyAt(chain, 0);
      chain[0].value
    else
      var r := Or(chain[1..]);
      assert forall j :: 1 <= j < |chain| ==> chain[j] == chain[1..][j - 1];
      if r == "" then r
      else
        var i :| FirstTruthyAt(chain[1..], i) && chain[1..][i].value == r;
        assert FirstTruthyAt(chain, i + 1);
        r
  }

  /** The first truthy field is unique, so `IsFirstTruthy` pins the value down. */
  lemma FirstTruthyUnique(chain: seq<Option<string>>, r1: string, r2: string)
    requires IsFirstTruthy(chain, r1) && IsFirstTruthy(chain, r2)
    ensures r1 == r2
  {
  }

  /** Clamps a relative index argument of `slice` against the length `len`:
      a negative index counts back from the end. */
  function RelativeIndex(k: int, len: nat): (r: nat)
    ensures r <= len
    ensures 0 <= k ==> r == if k <= len then k else len
    ensures k < 0 ==> r == if -k <= len then len + k else 0
  {
    if k < 0 then (if len + k < 0 then 0 else len + k)
    else if k > len then len
    else k
  }

  /** `s.slice(start, end)` for integer arguments. */
  function Slice<T>(s: seq<T>, start: int, end: int): (r: seq<T>)
    ensures |r| <= |s| - RelativeIndex(start, |s|)
    ensures forall k :: 0 <= k < |r| ==> r[k] == s[RelativeIndex(start, |s|) + k]
    ensures 0 <= start <= end ==>
              r == s[(if start <= |s| then start else |s|)..(if end <= |s| then end else |s|)]
  {
    var a := RelativeIndex(start, |s|);
    var b := RelativeIndex(end, |s|);
    if a < b then s[a..b] else []
  }

  /** The pieces of `parts` joined with `sep` between consecutive pieces:
      `parts.join(sep)`. */
  function Join(parts: seq<string>, sep: char): string
    requires |parts| >= 1
  {
    if |parts| == 1 then parts[0] else parts[0] + [sep] + Join(parts[1..], sep)
  }

  /** `s.split(sep)` for a one-character separator: the maximal stretches of
      `s` between separators, including empty ones. */
  function Split(s: string, sep: char): (parts: seq<string>)
    ensures |parts| >= 1
    ensures forall k :: 0 <= k < |parts| ==> sep !in parts[k]
    ensures |parts| == 1 + Occurrences(s, sep)
  {
    if |s| == 0 then [""]
    else
      var rest := Split(s[1..], sep);
      if s[0] == sep then [""] + rest
      else [[s[0]] + rest[0]] + rest[1..]
  }

  /** The number of occurrences of `c` in `s`. */
  function Occurrences(s: string, c: char): nat {
    if |s| == 0 then 0 else (if s[0] == c then 1 else 0) + Occurrences(s[1..], c)
  }

  /** Joining the pieces of a split gives back the original string. */
  lemma {:induction false} JoinSplit(s: string, sep: char)
    ensures Join(Split(s, sep), sep) == s
    decreases |s|
  {
    if |s| > 0 {
      var rest := Split(s[1..], sep);
      JoinSplit(s[1..], sep);
      if s[0] == sep {
        assert Split(s, sep) == [""] + rest;
        assert ([""] + rest)[1..] == rest;
      } else {
        var parts := Split(s, sep);
        assert parts == [[s[0]] + rest[0]] + rest[1..];
        if |rest| > 1 {
          assert parts[1..] == rest[1..];
          assert Join(rest, sep) == rest[0] + [sep] + Join(rest[1..], sep);
        }
      }
    }
  }

  /** Splitting pieces joined with a separator none of them contains gives
      back the pieces. */
  lemma {:induction false} SplitJoin(parts: seq<string>, sep: char)
    requires |parts| >= 1
    requires forall k :: 0 <= k < |parts| ==> sep !in parts[k]
    ensures Split(Join(parts, sep), sep) == parts
    decreases parts
  {
    if |parts| == 1 {
      SplitNoSep(parts[0], sep);
    } else {
      SplitJoin(parts[1..], sep);
      SplitPrefix(parts[0], Join(parts[1..], sep), sep);
      assert [parts[0]] + parts[1..] == parts;
    }
  }

  /** A string without separators splits into itself. */
  lemma {:induction false} SplitNoSep(s: string, sep: char)
    requires sep !in s
    ensures Split(s, sep) == [s]
    decreases |s|
  {
    if |s| > 0 {
      assert s[0] != sep;
      SplitNoSep(s[1..], sep);
      assert [s[0]] + s[1..] == s;
    }
  }

  /** A separator-free prefix followed by a separator becomes the first piece. */
  lemma {:induction false} SplitPrefix(p: string, t: string, sep: char)
    requires sep !in p
    ensures Split(p + [sep] + t, sep) == [p] + Split(t, sep)
    decreases |p|
  {
    if |p| == 0 {
      assert p + [sep] + t == [sep] + t;
      assert ([sep] + t)[1..] == t;
    } else {
      assert p[0] != sep;
      SplitPrefix(p[1..], t, sep);
      assert (p + [sep] + t)[1..] == p[1..] + [sep] + t;
      assert [p[0]] + p[1..] == p;
    }
  }

  /** `parts.filter(Boolean)`: drops the empty strings, keeps the order. */
  function NonEmpty(parts: seq<string>): (r: seq<string>)
    ensures |r| <= |parts|
    ensures forall k :: 0 <= k < |r| ==> r[k] != "" && r[k] in parts
    ensures forall k :: 0 <= k < |parts| && parts[k] != "" ==> parts[k] in r
  {
    if |parts| == 0 then []
    else
      var rest := NonEmpty(parts[1..]);
      assert forall k :: 1 <= k < |parts| ==> parts[k] == parts[1..][k - 1];
      if parts[0] == "" then rest else [parts[0]] + rest
  }

  /** Joining two non-empty lists of pieces puts a separator between them. */
  lemma {:induction false} JoinAppend(a: seq<string>, b: seq<string>, sep: char)
    requires |a| >= 1 && |b| >= 1
    ensures Join(a + b, sep) == Join(a, sep) + [sep] + Join(b, sep)
    decreases |a|
  {
    if |a| == 1 {
      assert (a + b)[1..] == b;
    } else {
      JoinAppend(a[1..], b, sep);
      assert (a + b)[1..] == a[1..] + b;
    }
  }

  /** `filter(Boolean)` works piece by piece and keeps the order: filtering a
      concatenation concatenates the filtered halves, and a single piece is
      kept exactly when it is non-empty. Together these fix the result for
      every list, so it is the list of non-empty pieces in their original
      order, duplicates included. */
  lemma {:induction false} NonEmptyAppend(a: seq<string>, b: seq<string>)
    ensures NonEmpty(a + b) == NonEmpty(a) + NonEmpty(b)
    ensures |a| == 1 ==> NonEmpty(a) == (if a[0] == "" then [] else a)
    decreases |a|
  {
    if |a| > 0 {
      NonEmptyAppend(a[1..], b);
      assert (a + b)[1..] == a[1..] + b;
    } else {
      assert a + b == b;
    }
    if |a| == 1 {
      assert a[1..] == [];
    }
  }

  /** Empty strings are all that `filter(Boolean)` removes. */
  lemma {:induction false} NonEmptyKeepsNonEmpty(parts: seq<string>)
    requires forall k :: 0 <= k < |parts| ==> parts[k] != ""
    ensures NonEmpty(parts) == parts
  {
    if |parts| > 0 {
      NonEmptyKeepsNonEmpty(parts[1..]);
      assert [parts[0]] + parts[1..] == parts;
    }
  }
}
