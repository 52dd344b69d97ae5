/**
 * Strings cut at a separator character, as JavaScript's `s.split(c)` cuts them, and the
 * line structure of a text file built on top of that: its complete lines and the
 * unterminated tail after the last newline.
 */
module Text {

  function Last<T>(s: seq<T>): T
    requires |s| > 0
  {
    s[|s| - 1]
  }

  /** The pieces of `s` between occurrences of `sep`; an empty `s` gives one empty piece. */
  function Split(s: string, sep: char): (parts: seq<string>)
    ensures |parts| >= 1
    ensures forall i :: 0 <= i < |parts| ==> sep !in parts[i]
    decreases |s|
  {
    if s == [] then [""]
    else
      var rest := Split(s[1..], sep);
      if s[0] == sep then [""] + rest
      else [[s[0]] + rest[0]] + rest[1..]
  }

  /** The pieces glued back together with `sep` between neighbours. */
  function Joined(parts: seq<string>, sep: char): string
    requires |parts| >= 1
  {
    if |parts| == 1 then parts[0] else parts[0] + [sep] + Joined(parts[1..], sep)
  }

  lemma {:induction false} SplitWithoutSeparator(s: string, sep: char)
    requires sep !in s
    ensures Split(s, sep) == [s]
    decreases |s|
  {
    if s != [] {
      SplitWithoutSeparator(s[1..], sep);
      assert [s[0]] + s[1..] == s;
    }
  }

  /** Cutting `a` then a separator then `t` yields `a` followed by the pieces of `t`. */
  lemma {:induction false} SplitAfterPiece(a: string, t: string, sep: char)
    requires sep !in a
    ensures Split(a + [sep] + t, sep) == [a] + Split(t, sep)
    decreases |a|
  {
    var s := a + [sep] + t;
    if a == [] {
      assert s[0] == sep && s[1..] == t;
    } else {
      assert s[0] == a[0] && s[1..] == a[1..] + [sep] + t;
      SplitAfterPiece(a[1..], t, sep);
      assert [a[0]] + a[1..] == a;
    }
  }

  /** Splitting is the inverse of joining pieces that do not contain the separator. */
  lemma {:induction false} SplitJoined(parts: seq<string>, sep: char)
    requires |parts| >= 1
    requires forall i :: 0 <= i < |parts| ==> sep !in parts[i]
    ensures Split(Joined(parts, sep), sep) == parts
    decreases |parts|
  {
    if |parts| == 1 {
      SplitWithoutSeparator(parts[0], sep);
    } else {
      SplitJoined(parts[1..], sep);
      SplitAfterPiece(parts[0], Joined(parts[1..], sep), sep);
      assert [parts[0]] + parts[1..] == parts;
    }
  }

  /**
   * The pieces of a concatenation: those of `a` except its last, that last piece
   * glued to the first piece of `b`, then the rest of the pieces of `b`.
   */
  lemma {:induction false} SplitConcat(a: string, b: string, sep: char)
    ensures Split(a + b, sep)
         == Split(a, sep)[..|Split(a, sep)| - 1]
          + [Last(Split(a, sep)) + Split(b, sep)[0]]
          + Split(b, sep)[1..]
    decreases |a|
  {
    var sb := Split(b, sep);
    if a == [] {
      assert a + b == b;
      assert Split(a, sep) == [""];
      assert "" + sb[0] == sb[0];
      assert [sb[0]] + sb[1..] == sb;
    } else {
      var s := a + b;
      assert s[0] == a[0] && s[1..] == a[1..] + b;
      SplitConcat(a[1..], b, sep);
      var sa, sa' := Split(a, sep), Split(a[1..], sep);
      var r := Split(a[1..] + b, sep);
      var n' := |sa'|;
      assert r == sa'[..n' - 1] + [Last(sa') + sb[0]] + sb[1..];
      if a[0] == sep {
        SplitConcatSeparatorHead(sa, sa', r, sb);
      } else {
        assert sa == [[a[0]] + sa'[0]] + sa'[1..];
        SplitConcatCharHead([a[0]], sa, sa', r, sb);
      }
    }
  }

  lemma SplitConcatSeparatorHead(sa: seq<string>, sa': seq<string>, r: seq<string>, sb: seq<string>)
    requires |sa'| >= 1 && |sb| >= 1
    requires sa == [""] + sa'
    requires r == sa'[..|sa'| - 1] + [Last(sa') + sb[0]] + sb[1..]
    ensures [""] + r == sa[..|sa| - 1] + [Last(sa) + sb[0]] + sb[1..]
  {
    assert sa[..|sa| - 1] == [""] + sa'[..|sa'| - 1];
  }

  lemma SplitConcatCharHead(c: string, sa: seq<string>, sa': seq<string>, r: seq<string>, sb: seq<string>)
    requires |sa'| >= 1 && |sb| >= 1
    requires sa == [c + sa'[0]] + sa'[1..]
    requires r == sa'[..|sa'| - 1] + [Last(sa') + sb[0]] + sb[1..]
    ensures [c + r[0]] + r[1..] == sa[..|sa| - 1] + [Last(sa) + sb[0]] + sb[1..]
  {
    if |sa'| == 1 {
      assert r[0] == sa'[0] + sb[0];
      assert r[1..] == sb[1..];
      assert sa == [c + sa'[0]] && Last(sa) == c + sa'[0];
      assert c + r[0] == (c + sa'[0]) + sb[0];
    } else {
      assert r[0] == sa'[0];
      assert r[1..] == sa'[1..|sa'| - 1] + [Last(sa') + sb[0]] + sb[1..];
      assert sa[..|sa| - 1] == [c + sa'[0]] + sa'[1..|sa'| - 1];
    }
  }

  /** The complete (newline-terminated) lines of a text, without their newlines. */
  function Rows(text: string): seq<string>
  {
    var pieces := Split(text, '\n');
    pieces[..|pieces| - 1]
  }

  /** What follows the last newline of a text: a line not yet terminated. */
  function Pending(text: string): string
  {
    Last(Split(text, '\n'))
  }

  /** Appending a line and its newline adds exactly one complete line to the text. */
  lemma AppendLine(text: string, line: string)
    requires '\n' !in line
    ensures Rows(text + line + "\n") == Rows(text) + [Pending(text) + line]
    ensures Pending(text + line + "\n") == ""
  {
    SplitAfterPiece(line, "", '\n');
    assert line + ['\n'] + "" == line + "\n";
    SplitConcat(text, line + "\n", '\n');
    assert text + line + "\n" == text + (line + "\n");
  }

  /** Appending text without a newline extends the unterminated tail and adds no line. */
  lemma AppendFragment(text: string, fragment: string)
    requires '\n' !in fragment
    ensures Rows(text + fragment) == Rows(text)
    ensures Pending(text + fragment) == Pending(text) + fragment
  {
    SplitWithoutSeparator(fragment, '\n');
    SplitConcat(text, fragment, '\n');
  }
}
