/**
 * The C++ standard-library text behaviour the two programs rely on:
 * whitespace classification, formatted extraction of words (`operator>>`
 * into a `std::string`), `std::getline`, `std::string::find` and the
 * single-space joining done by chained `operator<<`.
 */
module Text {
  import opened Wrappers

  /** Files by name; a name that is absent is a file that cannot be opened. */
  type FileSystem = map<string, string>

  /** The characters `std::isspace` accepts in the "C" locale. */
  predicate IsSpace(c: char) {
    c == ' ' || c == '\t' || c == '\n' || c == '\U{000B}' || c == '\U{000C}' || c == '\r'
  }

  /** A word as formatted extraction delivers it: non-empty, no whitespace. */
  predicate IsToken(t: string) {
    t != [] && forall i :: 0 <= i < |t| ==> !IsSpace(t[i])
  }

  /** What is left once the leading whitespace has been skipped. */
  function SkipSpace(s: string): (r: string)
    ensures |r| <= |s| && r == s[|s| - |r|..]
    ensures r == [] || !IsSpace(r[0])
    ensures forall i :: 0 <= i < |s| - |r| ==> IsSpace(s[i])
  {
    if s != [] && IsSpace(s[0]) then SkipSpace(s[1..]) else s
  }

  /** The length of the run of non-whitespace characters that starts `s`. */
  function RunLength(s: string): (n: nat)
    ensures n <= |s|
    ensures forall i :: 0 <= i < n ==> !IsSpace(s[i])
    ensures n < |s| ==> IsSpace(s[n])
  {
    if s == [] || IsSpace(s[0]) then 0 else 1 + RunLength(s[1..])
  }

  /**
   * The words that repeated `stream >> word` extracts from `s`, in order,
   * until an extraction fails at the end of the input.
   */
  function Tokens(s: string): (ts: seq<string>)
    ensures forall i :: 0 <= i < |ts| ==> IsToken(ts[i])
    decreases |s|
  {
    var t := SkipSpace(s);
    if t == [] then []
    else
      var n := RunLength(t);
      assert n > 0;
      var rest := Tokens(t[n..]);
      assert IsToken(t[..n]);
      [t[..n]] + rest
  }

  /** What `out << w0 << " " << w1 << " " ... << wk` writes. */
  function JoinSpaced(ws: seq<string>): string
  {
    if |ws| == 0 then []
    else if |ws| == 1 then ws[0]
    else ws[0] + " " + JoinSpaced(ws[1..])
  }

  lemma {:induction false} RunLengthOfToken(w: string, tail: string)
    requires forall i :: 0 <= i < |w| ==> !IsSpace(w[i])
    requires tail == [] || IsSpace(tail[0])
    ensures RunLength(w + tail) == |w|
  {
    if w != [] {
      assert (w + tail)[1..] == w[1..] + tail;
      RunLengthOfToken(w[1..], tail);
    }
  }

  lemma TokensAfterSpace(s: string)
    ensures Tokens(" " + s) == Tokens(s)
  {
    assert (" " + s)[1..] == s;
  }

  /** A word followed by whitespace (or by nothing) is extracted whole. */
  lemma TokensOfWordThen(w: string, tail: string)
    requires IsToken(w)
    requires tail == [] || IsSpace(tail[0])
    ensures Tokens(w + tail) == [w] + Tokens(tail)
  {
    var s := w + tail;
    assert SkipSpace(s) == s;
    RunLengthOfToken(w, tail);
    assert s[..|w|] == w;
    assert s[|w|..] == tail;
  }

  /** Splitting a single-space join of words gives back exactly those words. */
  lemma {:induction false} TokensOfJoinSpaced(ws: seq<string>)
    requires forall i :: 0 <= i < |ws| ==> IsToken(ws[i])
    ensures Tokens(JoinSpaced(ws)) == ws
  {
    if |ws| == 1 {
      var w := ws[0];
      assert IsToken(w);
      TokensOfWordThen(w, []);
      assert w + [] == w;
      assert Tokens([]) == [];
      assert JoinSpaced(ws) == w;
    } else if |ws| > 1 {
      var w, tail := ws[0], ws[1..];
      assert IsToken(w);
      assert forall i :: 0 <= i < |tail| ==> IsToken(tail[i]) by {
        forall i | 0 <= i < |tail| ensures IsToken(tail[i]) { assert tail[i] == ws[i + 1]; }
      }
      var rest := JoinSpaced(tail);
      TokensOfJoinSpaced(tail);
      TokensAfterSpace(rest);
      TokensOfWordThen(w, " " + rest);
      Associative(w, " ", rest);
      HeadTail(ws);
    }
  }

  lemma Associative(a: string, b: string, c: string)
    ensures a + b + c == a + (b + c)
  {
  }

  lemma HeadTail<T>(s: seq<T>)
    requires s != []
    ensures s == [s[0]] + s[1..]
  {
  }

  /** The length of the first line of `s`, without its terminating newline. */
  function LineLength(s: string): (n: nat)
    ensures n <= |s|
    ensures forall i :: 0 <= i < n ==> s[i] != '\n'
    ensures n < |s| ==> s[n] == '\n'
  {
    if s == [] || s[0] == '\n' then 0 else 1 + LineLength(s[1..])
  }

  /**
   * The lines that repeated `std::getline` delivers until a call fails:
   * a final newline does not open an extra empty line, and an empty text
   * has no lines at all.
   */
  function Lines(text: string): (ls: seq<string>)
    ensures forall i, j :: 0 <= i < |ls| && 0 <= j < |ls[i]| ==> ls[i][j] != '\n'
    decreases |text|
  {
    if text == [] then []
    else
      var n := LineLength(text);
      if n == |text| then [text] else [text[..n]] + Lines(text[n + 1..])
  }

  /** Every line followed by a newline, as a text file holding those lines. */
  function Terminated(ls: seq<string>): string
  {
    if ls == [] then [] else ls[0] + "\n" + Terminated(ls[1..])
  }

  lemma {:induction false} LineLengthOfLine(l: string, tail: string)
    requires forall i :: 0 <= i < |l| ==> l[i] != '\n'
    ensures LineLength(l + "\n" + tail) == |l|
  {
    if l != [] {
      assert (l + "\n" + tail)[1..] == l[1..] + "\n" + tail;
      LineLengthOfLine(l[1..], tail);
    }
  }

  /** `std::getline` reads back exactly the lines of a newline-terminated file. */
  lemma {:induction false} LinesOfTerminated(ls: seq<string>)
    requires forall i, j :: 0 <= i < |ls| && 0 <= j < |ls[i]| ==> ls[i][j] != '\n'
    ensures Lines(Terminated(ls)) == ls
  {
    if ls != [] {
      var text := Terminated(ls);
      var l := ls[0];
      assert text == l + "\n" + Terminated(ls[1..]);
      LineLengthOfLine(l, Terminated(ls[1..]));
      assert text[..|l|] == l;
      assert text[|l| + 1..] == Terminated(ls[1..]);
      LinesOfTerminated(ls[1..]);
    }
  }

  /** `s.find(pattern) != std::string::npos`. */
  predicate Contains(s: string, pattern: string) {
    exists i :: 0 <= i <= |s| - |pattern| && OccursAt(s, pattern, i)
  }

  /** `pattern` is found in `s` starting at position `i`. */
  predicate OccursAt(s: string, pattern: string, i: int)
    requires 0 <= i <= |s| - |pattern|
  {
    s[i..i + |pattern|] == pattern
  }

  /**
   * How a number is written by `operator<<` (a float in the mono program)
   * and read back by `operator>>` (into a double in the publisher): `format`
   * renders a value, `parse` converts a word (`None` when the stream's
   * conversion fails) and `zero` is the value 0 that a failed conversion
   * stores. One type `F` stands for both widths.
   */
  datatype NumberText<!F> = NumberText(format: F -> string, parse: string -> Option<F>, zero: F)

  /** `x` is written as one word and that word reads back as `x`. */
  ghost predicate RoundTrips<F>(codec: NumberText<F>, x: F) {
    IsToken(codec.format(x)) && codec.parse(codec.format(x)) == Some(x)
  }
}
