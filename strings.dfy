/** The few Python string operations the generator relies on. */
module Strings {

  /** Python's `s.startswith(prefix)`. */
  predicate StartsWith(s: string, prefix: string) {
    |prefix| <= |s| && s[..|prefix|] == prefix
  }

  /** `startswith` means exactly: the string is the prefix followed by something. */
  lemma StartsWithIffConcat(s: string, prefix: string)
    ensures StartsWith(s, prefix) <==> exists rest :: s == prefix + rest
  {
    if StartsWith(s, prefix) {
      assert s == prefix + s[|prefix|..];
    } else {
      ConcatStartsWithPrefix(prefix);
    }
  }

  /** Every string built from `prefix` has `prefix` as its first characters. */
  lemma ConcatStartsWithPrefix(prefix: string)
    ensures forall rest :: (prefix + rest)[..|prefix|] == prefix
  {
    forall rest ensures (prefix + rest)[..|prefix|] == prefix {
      assert (prefix + rest)[..|prefix|] == prefix;
    }
  }

  /** A string starts with whatever it was built from. */
  lemma StartsWithConcat(prefix: string, rest: string)
    ensures StartsWith(prefix + rest, prefix)
  {
    assert (prefix + rest)[..|prefix|] == prefix;
  }

  /** `s` is a single line: it holds no line break. */
  predicate NoNewline(s: string) {
    '\n' !in s
  }

  /** Python's `"\n".join(parts)`. */
  function JoinLines(parts: seq<string>): (r: string)
    ensures |parts| >= 2 ==> !NoNewline(r)
    ensures (forall k :: 0 <= k < |parts| ==> NoNewline(parts[k])) && |parts| <= 1 ==> NoNewline(r)
  {
    if parts == [] then ""
    else if |parts| == 1 then parts[0]
    else
      var r := parts[0] + "\n" + JoinLines(parts[1..]);
      assert r[|parts[0]|] == '\n';
      r
  }

  /** Python's `s.split("\n")`: the lines of `s`; there is always at least one. */
  function Lines(s: string): (r: seq<string>)
    ensures |r| >= 1
    ensures |r| == 1 <==> NoNewline(s)
  {
    if s == [] then [""]
    else if s[0] == '\n' then [""] + Lines(s[1..])
    else
      var rest := Lines(s[1..]);
      [[s[0]] + rest[0]] + rest[1..]
  }

  /** A string without a line break is one line. */
  lemma {:induction false} LinesOfLine(a: string)
    requires NoNewline(a)
    ensures Lines(a) == [a]
  {
    if a != [] {
      LinesOfLine(a[1..]);
      assert [a[0]] + a[1..] == a;
    }
  }

  /** A line followed by a line break contributes exactly itself to the lines. */
  lemma {:induction false} LinesAfterLine(a: string, b: string)
    requires NoNewline(a)
    ensures Lines(a + "\n" + b) == [a] + Lines(b)
  {
    if a == [] {
      assert a + "\n" + b == "\n" + b;
      assert ("\n" + b)[1..] == b;
    } else {
      var s := a + "\n" + b;
      assert s[0] == a[0] && s[0] != '\n';
      assert s[1..] == a[1..] + "\n" + b;
      var rest := Lines(s[1..]);
      LinesAfterLine(a[1..], b);
      assert rest == [a[1..]] + Lines(b);
      assert Lines(s) == [[a[0]] + rest[0]] + rest[1..];
      assert [a[0]] + a[1..] == a;
    }
  }

  /** Joining single lines and then continuing after a line break: the lines
      are the joined parts, in order, then the lines of what follows. */
  lemma {:induction false} LinesOfJoinThen(parts: seq<string>, rest: string)
    requires parts != []
    requires forall k :: 0 <= k < |parts| ==> NoNewline(parts[k])
    ensures Lines(JoinLines(parts) + "\n" + rest) == parts + Lines(rest)
  {
    if |parts| == 1 {
      LinesAfterLine(parts[0], rest);
    } else {
      var tail := JoinLines(parts[1..]) + "\n" + rest;
      assert NoNewline(parts[0]);
      assert forall k :: 0 <= k < |parts[1..]| ==> NoNewline(parts[1..][k]) by {
        forall k | 0 <= k < |parts[1..]| ensures NoNewline(parts[1..][k]) {
          assert parts[1..][k] == parts[k + 1];
        }
      }
      calc {
        Lines(JoinLines(parts) + "\n" + rest);
        { assert JoinLines(parts) + "\n" + rest == parts[0] + "\n" + tail; }
        Lines(parts[0] + "\n" + tail);
        { LinesAfterLine(parts[0], tail); }
        [parts[0]] + Lines(tail);
        { LinesOfJoinThen(parts[1..], rest); }
        [parts[0]] + (parts[1..] + Lines(rest));
        { assert parts == [parts[0]] + parts[1..]; }
        parts + Lines(rest);
      }
    }
  }

  /** Splitting undoes joining, for a non-empty list of single lines. */
  lemma {:induction false} SplitJoinRoundTrip(parts: seq<string>)
    requires parts != []
    requires forall k :: 0 <= k < |parts| ==> NoNewline(parts[k])
    ensures Lines(JoinLines(parts)) == parts
  {
    if |parts| == 1 {
      LinesOfLine(parts[0]);
    } else {
      SplitJoinRoundTrip(parts[1..]);
      LinesAfterLine(parts[0], JoinLines(parts[1..]));
      assert parts == [parts[0]] + parts[1..];
    }
  }

  /** A block framed by a header line and followed by a footer line and a last
      line: its lines are the header, the joined parts, the footer and the last line. */
  lemma LinesOfFramedBlock(header: string, parts: seq<string>, footer: string, last: string)
    requires NoNewline(header) && NoNewline(footer) && NoNewline(last)
    requires parts != []
    requires forall k :: 0 <= k < |parts| ==> NoNewline(parts[k])
    ensures Lines((header + "\n") + JoinLines(parts) + ("\n" + footer) + "\n" + last)
         == [header] + parts + [footer, last]
  {
    var rest := footer + "\n" + last;
    FramedShape(header, JoinLines(parts), footer, last);
    LinesAfterLine(header, JoinLines(parts) + "\n" + rest);
    LinesOfJoinThen(parts, rest);
    LinesAfterLine(footer, last);
    LinesOfLine(last);
  }

  /** Regrouping of the framed block, one line break at a time. */
  lemma FramedShape(header: string, body: string, footer: string, last: string)
    ensures (header + "\n") + body + ("\n" + footer) + "\n" + last
         == header + "\n" + (body + "\n" + (footer + "\n" + last))
  {
    ConcatAssoc(header + "\n", body, "\n" + footer);
    ConcatAssoc(header, "\n", body + ("\n" + footer));
    ConcatAssoc(body, "\n", footer);
    ConcatAssoc(header + "\n" + body + ("\n" + footer), "\n", last);
  }

  lemma ConcatAssoc(a: string, b: string, c: string)
    ensures (a + b) + c == a + (b + c)
  {
  }
}
