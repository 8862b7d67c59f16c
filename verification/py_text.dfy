/**
 * Python's `str.split(sep)`, `str.strip()` and `sep.join(...)` on strings, and the
 * comma-list splitter `parse_list` of `ConfigManager.get_list`.
 */
module PyText {

  /** The characters for which Python's `str.isspace()` holds; `str.strip()` removes these. */
  predicate IsSpace(c: char) {
    var n := c as int;
    || 9 <= n <= 13 || 28 <= n <= 32 || n == 0x85 || n == 0xA0 || n == 0x1680
    || 0x2000 <= n <= 0x200A || n == 0x2028 || n == 0x2029 || n == 0x202F
    || n == 0x205F || n == 0x3000
  }

  /** `sep.join(parts)`. */
  function Join(parts: seq<string>, sep: char): string {
    if |parts| == 0 then ""
    else if |parts| == 1 then parts[0]
    else parts[0] + [sep] + Join(parts[1..], sep)
  }

  /** Joining two parts puts one separator between them. */
  lemma JoinTwo(parts: seq<string>, sep: char)
    requires |parts| == 2
    ensures Join(parts, sep) == parts[0] + [sep] + parts[1]
  {
    assert parts[1..] == [parts[1]];
  }

  /**
   * `s.split(sep)`: the maximal separator-free pieces of `s`, in order. The
   * contract determines the result: the pieces contain no separator and joining
   * them back gives `s` (`SplitJoin` shows no other pieces do).
   */
  function Split(s: string, sep: char): (parts: seq<string>)
    ensures |parts| >= 1
    ensures forall p | p in parts :: sep !in p
    ensures Join(parts, sep) == s
    decreases |s|
  {
    if |s| == 0 then [""]
    else
      var rest := Split(s[1..], sep);
      SplitStep(s, sep, rest);
      PrependToPieces(s[0], rest, sep)
  }

  /** `s.count(c)` for a single character. */
  function Occurrences(s: string, c: char): nat {
    if |s| == 0 then 0 else (if s[0] == c then 1 else 0) + Occurrences(s[1..], c)
  }

  /** There is one more piece than there are separators. */
  lemma {:induction false} SplitCount(s: string, sep: char)
    ensures |Split(s, sep)| == Occurrences(s, sep) + 1
    decreases |s|
  {
    if |s| > 0 {
      SplitCount(s[1..], sep);
    }
  }

  /** The pieces of `[c] + t`, given the pieces of `t`: a separator starts a new first piece. */
  function PrependToPieces(c: char, rest: seq<string>, sep: char): seq<string>
    requires |rest| >= 1
  {
    if c == sep then [""] + rest else [[c] + rest[0]] + rest[1..]
  }

  /** One step of `Split`: the pieces of `s[1..]` with `s[0]` put in front are the pieces of `s`. */
  lemma SplitStep(s: string, sep: char, rest: seq<string>)
    requires |s| >= 1 && |rest| >= 1
    requires forall p | p in rest :: sep !in p
    requires Join(rest, sep) == s[1..]
    ensures |PrependToPieces(s[0], rest, sep)| >= 1
    ensures forall p | p in PrependToPieces(s[0], rest, sep) :: sep !in p
    ensures Join(PrependToPieces(s[0], rest, sep), sep) == s
  {
    assert s == [s[0]] + s[1..];
    if s[0] == sep {
      assert ([""] + rest)[1..] == rest;
    } else {
      JoinPrepend(s[0], rest, sep);
      var first := [s[0]] + rest[0];
      assert sep !in first;
      assert forall p | p in rest[1..] :: p in rest;
    }
  }

  /** Putting a character in front of the first part puts it in front of the joined text. */
  lemma JoinPrepend(c: char, parts: seq<string>, sep: char)
    requires |parts| >= 1
    ensures Join([[c] + parts[0]] + parts[1..], sep) == [c] + Join(parts, sep)
  {
    var q := [[c] + parts[0]] + parts[1..];
    assert q[1..] == parts[1..];
  }

  /** `s.lstrip()`: removes the longest all-whitespace prefix. */
  function StripStart(s: string): (r: string)
    ensures |r| <= |s|
    ensures r == [] || !IsSpace(r[0])
    decreases |s|
  {
    if |s| > 0 && IsSpace(s[0]) then StripStart(s[1..]) else s
  }

  /** What `lstrip()` removes is a prefix made of whitespace only. */
  lemma {:induction false} StripStartSlice(s: string)
    ensures StripStart(s) == s[|s| - |StripStart(s)|..]
    ensures forall k | 0 <= k < |s| - |StripStart(s)| :: IsSpace(s[k])
    decreases |s|
  {
    if |s| > 0 && IsSpace(s[0]) {
      StripStartSlice(s[1..]);
    }
  }

  /** `s.rstrip()`: removes the longest all-whitespace suffix. */
  function StripEnd(s: string): (r: string)
    ensures |r| <= |s|
    ensures r == [] || !IsSpace(r[|r| - 1])
    decreases |s|
  {
    if |s| > 0 && IsSpace(s[|s| - 1]) then StripEnd(s[..|s| - 1]) else s
  }

  /** What `rstrip()` removes is a suffix made of whitespace only. */
  lemma {:induction false} StripEndSlice(s: string)
    ensures StripEnd(s) == s[..|StripEnd(s)|]
    ensures forall k | |StripEnd(s)| <= k < |s| :: IsSpace(s[k])
    decreases |s|
  {
    if |s| > 0 && IsSpace(s[|s| - 1]) {
      StripEndSlice(s[..|s| - 1]);
    }
  }

  /** Neither end of `s` is whitespace. */
  predicate IsStripped(s: string) {
    s == [] || (!IsSpace(s[0]) && !IsSpace(s[|s| - 1]))
  }

  /** `s.strip()`: `s` without its leading and trailing whitespace. */
  function Strip(s: string): (r: string)
    ensures IsStripped(r)
  {
    var t := StripStart(s);
    StripEndSlice(t);
    StripEnd(t)
  }

  /** `strip()` keeps a slice of `s` and cuts away only whitespace. */
  lemma StripSlice(s: string)
    ensures exists i, j | 0 <= i <= j <= |s| ::
      && Strip(s) == s[i..j]
      && (forall k | 0 <= k < i :: IsSpace(s[k]))
      && (forall k | j <= k < |s| :: IsSpace(s[k]))
  {
    var t := StripStart(s);
    var i := |s| - |t|;
    StripStartSlice(s);
    StripEndSlice(t);
    assert Strip(s) == s[i..i + |Strip(s)|];
  }

  /** A string whose ends are not whitespace is left alone by `strip()`. */
  lemma StripStripped(s: string)
    requires IsStripped(s)
    ensures Strip(s) == s
  {
  }

  /** Every character of `strip(s)` occurs in `s`. */
  lemma StripChars(s: string, c: char)
    requires c in Strip(s)
    ensures c in s
  {
    StripSlice(s);
    var i, j :| 0 <= i <= j <= |s| && Strip(s) == s[i..j];
    var k :| 0 <= k < |Strip(s)| && Strip(s)[k] == c;
    assert s[i + k] == c;
  }

  /** The pieces kept by `parse_list`: each piece stripped, the empty ones dropped, in order. */
  function Compact(parts: seq<string>): (r: seq<string>)
    ensures forall x | x in r :: x != "" && IsStripped(x)
    ensures |r| <= |parts|
  {
    if |parts| == 0 then []
    else
      var p := Strip(parts[0]);
      (if p == "" then [] else [p]) + Compact(parts[1..])
  }

  /** Compacting one more piece at the end extends the result by that piece, stripped, if not empty. */
  lemma {:induction false} CompactSnoc(parts: seq<string>, last: string)
    ensures Compact(parts + [last]) == Compact(parts) + (if Strip(last) == "" then [] else [Strip(last)])
    decreases |parts|
  {
    if |parts| == 0 {
      assert parts + [last] == [last];
    } else {
      assert (parts + [last])[1..] == parts[1..] + [last];
      CompactSnoc(parts[1..], last);
    }
  }

  /** Pieces that are already stripped and non-empty are kept as they are. */
  lemma {:induction false} CompactClean(parts: seq<string>)
    requires forall x | x in parts :: x != "" && IsStripped(x)
    ensures Compact(parts) == parts
    decreases |parts|
  {
    if |parts| > 0 {
      StripStripped(parts[0]);
      assert forall x | x in parts[1..] :: x in parts;
      CompactClean(parts[1..]);
    }
  }

  /** The result of `get_list`'s converter: the comma-separated segments of `s`, stripped, non-empty. */
  function CommaSegments(s: string): seq<string> {
    Compact(Split(s, ','))
  }

  /**
   * `parse_list` inside `get_list`: splits on commas, strips each part and keeps
   * the non-empty ones in their original order.
   */
  method ParseList(v: string) returns (results: seq<string>)
    ensures results == CommaSegments(v)
  {
    var parts := Split(v, ',');
    results := StripParts(parts);
  }

  /** The loop of `parse_list`: appends each part, stripped, unless it is empty. */
  method StripParts(parts: seq<string>) returns (results: seq<string>)
    ensures results == Compact(parts)
  {
    results := [];
    for i := 0 to |parts|
      invariant results == Compact(parts[..i])
    {
      var part := Strip(parts[i]);
      CompactSnoc(parts[..i], parts[i]);
      assert parts[..i + 1] == parts[..i] + [parts[i]];
      if part != "" {
        results := results + [part];
      }
    }
    assert parts[..|parts|] == parts;
  }

  /** Every segment produced by the comma splitter is non-empty, stripped and free of commas. */
  lemma CommaSegmentsClean(s: string)
    ensures forall x | x in CommaSegments(s) :: x != "" && IsStripped(x) && ',' !in x
  {
    CompactNoSep(Split(s, ','), ',');
  }

  /** Compacting separator-free pieces gives separator-free pieces. */
  lemma {:induction false} CompactNoSep(parts: seq<string>, sep: char)
    requires forall p | p in parts :: sep !in p
    ensures forall x | x in Compact(parts) :: sep !in x
    decreases |parts|
  {
    if |parts| > 0 {
      CompactNoSep(parts[1..], sep);
      if sep in Strip(parts[0]) {
        StripChars(parts[0], sep);
      }
    }
  }

  /** A string without the separator is a single piece. */
  lemma SplitNoSep(s: string, sep: char)
    requires sep !in s
    ensures Split(s, sep) == [s]
  {
  }

  /** Splitting `p + sep + rest`, where `p` has no separator, gives `p` followed by the pieces of `rest`. */
  lemma {:induction false} SplitAfterPiece(p: string, sep: char, rest: string)
    requires sep !in p
    ensures Split(p + [sep] + rest, sep) == [p] + Split(rest, sep)
    decreases |p|
  {
    var s := p + [sep] + rest;
    if |p| == 0 {
      assert s[1..] == rest;
    } else {
      assert s[1..] == p[1..] + [sep] + rest;
      SplitAfterPiece(p[1..], sep, rest);
      assert [p[0]] + p[1..] == p;
    }
  }

  /** `s.split(sep)` undoes `sep.join(parts)` when the parts contain no separator. */
  lemma {:induction false} SplitJoin(parts: seq<string>, sep: char)
    requires |parts| >= 1
    requires forall p | p in parts :: sep !in p
    ensures Split(Join(parts, sep), sep) == parts
    decreases |parts|
  {
    if |parts| == 1 {
      SplitNoSep(parts[0], sep);
    } else {
      SplitJoin(parts[1..], sep);
      SplitAfterPiece(parts[0], sep, Join(parts[1..], sep));
      assert [parts[0]] + parts[1..] == parts;
    }
  }

  /**
   * Round trip of the comma list: joining clean items (non-empty, stripped, comma
   * free) with commas and parsing the result gives the items back.
   */
  lemma CommaSegmentsJoin(items: seq<string>)
    requires forall x | x in items :: x != "" && IsStripped(x) && ',' !in x
    ensures CommaSegments(Join(items, ',')) == items
  {
    if |items| == 0 {
      assert Split("", ',') == [""];
    } else {
      SplitJoin(items, ',');
      CompactClean(items);
    }
  }
}
