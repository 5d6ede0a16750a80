/** The parts of Go's `strings` and `unicode` packages the core relies on,
    over strings seen as sequences of Unicode code points (Go iterates a
    string by runes with `range`, but `len` counts UTF-8 bytes). */
module GoText {

  /** Number of bytes UTF-8 needs for one code point. */
  function Utf8Width(c: char): (n: nat)
    ensures 1 <= n <= 4
    ensures n == 1 <==> c as int < 0x80
  {
    if c as int < 0x80 then 1
    else if c as int < 0x800 then 2
    else if c as int < 0x1_0000 then 3
    else 4
  }

  /** Go's `len(s)` on a string: its length in UTF-8 bytes. */
  function ByteLen(s: string): nat
  {
    if s == [] then 0 else Utf8Width(s[0]) + ByteLen(s[1..])
  }

  predicate IsAscii(s: string)
  {
    forall i :: 0 <= i < |s| ==> s[i] as int < 0x80
  }

  /** On ASCII text the byte length is the number of characters. */
  lemma {:induction false} ByteLenAscii(s: string)
    requires IsAscii(s)
    ensures ByteLen(s) == |s|
  {
    if s != [] {
      ByteLenAscii(s[1..]);
    }
  }

  /** Every code point takes between one and four bytes, and a string is
      no shorter in bytes than in characters, with equality only for ASCII. */
  lemma {:induction false} ByteLenBounds(s: string)
    ensures |s| <= ByteLen(s) <= 4 * |s|
    ensures ByteLen(s) == |s| ==> IsAscii(s)
  {
    if s != [] {
      ByteLenBounds(s[1..]);
      if ByteLen(s) == |s| {
        assert Utf8Width(s[0]) == 1;
        assert forall i :: 1 <= i < |s| ==> s[i] == s[1..][i - 1];
      }
    }
  }

  /** `unicode.IsSpace`: the Latin-1 spaces and the other code points with
      the Unicode White_Space property. */
  predicate IsSpace(c: char)
  {
    var n := c as int;
    (0x09 <= n <= 0x0D) || n == 0x20 || n == 0x85 || n == 0xA0
    || n == 0x1680 || (0x2000 <= n <= 0x200A)
    || n == 0x2028 || n == 0x2029 || n == 0x202F || n == 0x205F || n == 0x3000
  }

  /** Lower-casing of one character; only the ASCII letters are mapped. */
  function LowerChar(c: char): char
  {
    if 'A' <= c <= 'Z' then (c as int + 32) as char else c
  }

  /** `strings.ToLower`, restricted to ASCII case mapping. */
  function ToLower(s: string): (r: string)
    ensures |r| == |s|
    ensures forall i :: 0 <= i < |s| ==> r[i] == LowerChar(s[i])
  {
    if s == [] then [] else [LowerChar(s[0])] + ToLower(s[1..])
  }

  /** Number of occurrences of `c` in `s`. */
  function Count(s: string, c: char): nat
  {
    if s == [] then 0 else (if s[0] == c then 1 else 0) + Count(s[1..], c)
  }

  /** `strings.Split(s, string(sep))`: the pieces between the occurrences
      of `sep`; the empty string gives one empty piece. */
  function Split(s: string, sep: char): (parts: seq<string>)
    ensures |parts| >= 1
  {
    if s == [] then [""]
    else if s[0] == sep then [""] + Split(s[1..], sep)
    else
      var rest := Split(s[1..], sep);
      [[s[0]] + rest[0]] + rest[1..]
  }

  /** `strings.Join(parts, string(sep))`. */
  function Join(parts: seq<string>, sep: char): string
  {
    if parts == [] then ""
    else if |parts| == 1 then parts[0]
    else parts[0] + [sep] + Join(parts[1..], sep)
  }

  /** Joining the pieces back with the separator gives the original text. */
  lemma {:induction false} JoinSplit(s: string, sep: char)
    ensures Join(Split(s, sep), sep) == s
  {
    if s != [] {
      JoinSplit(s[1..], sep);
      var rest := Split(s[1..], sep);
      if s[0] == sep {
        JoinEmptyFirst(rest, sep);
      } else {
        JoinExtendFirst(s[0], rest, sep);
      }
      assert s == [s[0]] + s[1..];
    }
  }

  /** An empty first piece contributes only its separator. */
  lemma JoinEmptyFirst(rest: seq<string>, sep: char)
    requires |rest| >= 1
    ensures Join([""] + rest, sep) == [sep] + Join(rest, sep)
  {
    var parts := [""] + rest;
    assert parts[1..] == rest;
  }

  /** A character added in front of the first piece comes first in the join. */
  lemma JoinExtendFirst(c: char, rest: seq<string>, sep: char)
    requires |rest| >= 1
    ensures Join([[c] + rest[0]] + rest[1..], sep) == [c] + Join(rest, sep)
  {
    var parts := [[c] + rest[0]] + rest[1..];
    assert parts[1..] == rest[1..];
    if |rest| > 1 {
      assert Join(parts, sep) == [c] + rest[0] + [sep] + Join(rest[1..], sep);
    }
  }

  /** No piece contains the separator, and there is one piece more than
      there are separators. */
  lemma {:induction false} SplitPieces(s: string, sep: char)
    ensures |Split(s, sep)| == Count(s, sep) + 1
    ensures forall i :: 0 <= i < |Split(s, sep)| ==> Count(Split(s, sep)[i], sep) == 0
  {
    if s != [] {
      SplitPieces(s[1..], sep);
      var rest := Split(s[1..], sep);
      if s[0] != sep {
        var head := [s[0]] + rest[0];
        assert head[1..] == rest[0];
        var parts := Split(s, sep);
        forall i | 0 <= i < |parts| ensures Count(parts[i], sep) == 0 {
          if i > 0 {
            assert parts[i] == rest[i];
          }
        }
      }
    }
  }

  /** Splitting text built from separator-free pieces gives those pieces back. */
  lemma {:induction false} SplitJoin(parts: seq<string>, sep: char)
    requires |parts| >= 1
    requires forall i :: 0 <= i < |parts| ==> Count(parts[i], sep) == 0
    ensures Split(Join(parts, sep), sep) == parts
  {
    if |parts| == 1 {
      SplitNoSep(parts[0], sep);
    } else {
      SplitJoin(parts[1..], sep);
      SplitPrefix(parts[0], Join(parts[1..], sep), sep);
    }
  }

  lemma {:induction false} SplitNoSep(w: string, sep: char)
    requires Count(w, sep) == 0
    ensures Split(w, sep) == [w]
  {
    if w != [] {
      SplitNoSep(w[1..], sep);
      assert w == [w[0]] + w[1..];
    }
  }

  /** A separator-free word in front of a separator is the first piece. */
  lemma {:induction false} SplitPrefix(w: string, tail: string, sep: char)
    requires Count(w, sep) == 0
    ensures Split(w + [sep] + tail, sep) == [w] + Split(tail, sep)
  {
    if w == [] {
      assert w + [sep] + tail == [sep] + tail;
      assert ([sep] + tail)[1..] == tail;
    } else {
      var s := w + [sep] + tail;
      assert s[1..] == w[1..] + [sep] + tail;
      SplitPrefix(w[1..], tail, sep);
      assert w == [w[0]] + w[1..];
    }
  }

  /** Length of the run of non-space characters at the front of `s`. */
  function WordLen(s: string): (n: nat)
    ensures n <= |s|
    ensures forall i :: 0 <= i < n ==> !IsSpace(s[i])
    ensures n < |s| ==> IsSpace(s[n])
  {
    if s == [] || IsSpace(s[0]) then 0 else 1 + WordLen(s[1..])
  }

  /** `strings.Fields`: the maximal runs of non-space characters, in order. */
  function Fields(s: string): seq<string>
    decreases |s|
  {
    if s == [] then []
    else if IsSpace(s[0]) then Fields(s[1..])
    else
      var n := WordLen(s);
      [s[..n]] + Fields(s[n..])
  }

  predicate IsWord(w: string)
  {
    w != [] && forall i :: 0 <= i < |w| ==> !IsSpace(w[i])
  }

  /** Every field is a non-empty word without white space. */
  lemma {:induction false} FieldsAreWords(s: string)
    ensures forall i :: 0 <= i < |Fields(s)| ==> IsWord(Fields(s)[i])
    decreases |s|
  {
    if s != [] {
      if IsSpace(s[0]) {
        FieldsAreWords(s[1..]);
      } else {
        var n := WordLen(s);
        FieldsAreWords(s[n..]);
        var fs := Fields(s);
        forall i | 0 <= i < |fs| ensures IsWord(fs[i]) {
          if i > 0 {
            assert fs[i] == Fields(s[n..])[i - 1];
          }
        }
      }
    }
  }

  /** Words separated by single spaces come back out of `Fields` unchanged. */
  lemma {:induction false} FieldsOfWords(ws: seq<string>)
    requires forall i :: 0 <= i < |ws| ==> IsWord(ws[i])
    ensures Fields(Join(ws, ' ')) == ws
  {
    if |ws| == 1 {
      FieldsWord(ws[0], "");
      assert ws[0] + "" == ws[0];
    } else if |ws| > 1 {
      FieldsOfWords(ws[1..]);
      var tail := [' '] + Join(ws[1..], ' ');
      FieldsWord(ws[0], tail);
      assert tail[1..] == Join(ws[1..], ' ');
      assert ws[0] + [' '] + Join(ws[1..], ' ') == ws[0] + tail;
    }
  }

  /** A word followed by a space (or by nothing) is the first field. */
  lemma WordLenPrefix(w: string, tail: string)
    requires IsWord(w)
    requires tail == [] || IsSpace(tail[0])
    ensures WordLen(w + tail) == |w|
    decreases |w|
  {
    if |w| > 1 {
      assert (w + tail)[1..] == w[1..] + tail;
      WordLenPrefix(w[1..], tail);
    } else {
      assert (w + tail)[1..] == tail;
    }
  }

  lemma FieldsWord(w: string, tail: string)
    requires IsWord(w)
    requires tail == [] || IsSpace(tail[0])
    ensures Fields(w + tail) == [w] + Fields(tail)
  {
    WordLenPrefix(w, tail);
    var s := w + tail;
    assert s[..|w|] == w;
    assert s[|w|..] == tail;
  }
}
