/**
 * The ArUco transform table of the mono program: a text file whose first
 * line is a header and whose other lines each give a marker id, a
 * translation `tx ty tz` and an orientation quaternion `qx qy qz qw`.
 * Reading it builds a map from marker id to transform.
 */
module ArucoTable {
  import opened Wrappers
  import opened Text

  datatype Float3<F> = Float3(x: F, y: F, z: F)
  datatype Float4<F> = Float4(x: F, y: F, z: F, w: F)

  /** A marker's world pose: `setTranslation` and `setOrientation` of an `sl::Transform`. */
  datatype Transform<F> = Transform(translation: Float3<F>, orientation: Float4<F>)

  /** `std::stoi` and `std::stof` as partial conversions: `None` where they throw. */
  datatype Converters<!F> = Converters(stoi: string -> Option<int>, stof: string -> Option<F>)

  type Entry<F> = (int, Transform<F>)

  function CouldNotOpen(filename: string): string {
    "Error: could not open file " + filename
  }

  /** Lines that are skipped before any extraction: empty ones and comments. */
  predicate IsSkippedLine(line: string) {
    line == [] || line[0] == '#'
  }

  /** The eight fields of a data line all convert, in the order id, tx, ty, tz, qx, qy, qz, qw. */
  predicate Converts<F>(conv: Converters<F>, fields: seq<string>)
    requires |fields| == 8
  {
    && conv.stoi(fields[0]).Some?
    && conv.stof(fields[1]).Some? && conv.stof(fields[2]).Some? && conv.stof(fields[3]).Some?
    && conv.stof(fields[4]).Some? && conv.stof(fields[5]).Some? && conv.stof(fields[6]).Some?
    && conv.stof(fields[7]).Some?
  }

  function EntryOf<F>(conv: Converters<F>, fields: seq<string>): Entry<F>
    requires |fields| == 8 && Converts(conv, fields)
  {
    (conv.stoi(fields[0]).value,
     Transform(Float3(conv.stof(fields[1]).value, conv.stof(fields[2]).value, conv.stof(fields[3]).value),
               Float4(conv.stof(fields[4]).value, conv.stof(fields[5]).value,
                      conv.stof(fields[6]).value, conv.stof(fields[7]).value)))
  }

  /** The entry one line after the header contributes to the table, if any. */
  function ParseLine<F>(conv: Converters<F>, line: string): Option<Entry<F>>
  {
    if IsSkippedLine(line) then None
    else
      var ts := Tokens(line);
      if |ts| < 8 || !Converts(conv, ts[..8]) then None
      else Some(EntryOf(conv, ts[..8]))
  }

  /** The line is accepted and gives marker `id`. */
  predicate Accepts<F>(conv: Converters<F>, line: string, id: int) {
    ParseLine(conv, line).Some? && ParseLine(conv, line).value.0 == id
  }

  function Insert<F>(m: map<int, Transform<F>>, e: Option<Entry<F>>): map<int, Transform<F>> {
    match e
    case None => m
    case Some((id, t)) => m[id := t]
  }

  /** The table built from the data lines `body`, each assignment overwriting an earlier one. */
  function TableOf<F>(conv: Converters<F>, body: seq<string>): map<int, Transform<F>>
    decreases |body|
  {
    if body == [] then map[]
    else Insert(TableOf(conv, body[..|body| - 1]), ParseLine(conv, body[|body| - 1]))
  }

  /** The table read from file `filename`: empty when it cannot be opened; its first line is discarded. */
  function ReadTransforms<F>(conv: Converters<F>, fs: FileSystem, filename: string): map<int, Transform<F>>
  {
    if filename !in fs then map[]
    else
      var lines := Lines(fs[filename]);
      if lines == [] then map[] else TableOf(conv, lines[1..])
  }

  /**
   * `readArucoTransforms`: open the file, discard the header, then read
   * line by line, skipping what does not parse, and store each entry.
   */
  method ReadArucoTransforms<F>(conv: Converters<F>, fs: FileSystem, filename: string)
    returns (transforms: map<int, Transform<F>>, errors: seq<string>)
    ensures transforms == ReadTransforms(conv, fs, filename)
    ensures filename !in fs ==> transforms == map[]
    ensures errors == if filename in fs then [] else [CouldNotOpen(filename)]
  {
    transforms := map[];
    if filename !in fs {
      errors := [CouldNotOpen(filename)];
      return;
    }
    errors := [];
    var lines := Lines(fs[filename]);
    if lines == [] {
      return;
    }
    var i := 1;
    while i < |lines|
      invariant 1 <= i <= |lines|
      invariant transforms == TableOf(conv, lines[1..i])
    {
      var entry := ConvertLine(conv, lines[i]);
      assert lines[1..i + 1][..i - 1] == lines[1..i];
      i := i + 1;
      if entry.Some? {
        transforms := transforms[entry.value.0 := entry.value.1];
      }
    }
    assert lines[1..i] == lines[1..];
  }

  /**
   * The body of the read loop for one line: skip empty and comment lines,
   * extract eight words, convert them, and give up on the line (`continue`)
   * at the first step that fails.
   */
  method ConvertLine<F>(conv: Converters<F>, line: string) returns (entry: Option<Entry<F>>)
    ensures entry == ParseLine(conv, line)
  {
    if line == [] || line[0] == '#' {
      return None;
    }
    var ts := Tokens(line);
    if |ts| < 8 {
      return None;
    }
    var id, tx, ty, tz := conv.stoi(ts[0]), conv.stof(ts[1]), conv.stof(ts[2]), conv.stof(ts[3]);
    var qx, qy, qz, qw := conv.stof(ts[4]), conv.stof(ts[5]), conv.stof(ts[6]), conv.stof(ts[7]);
    var fields := ts[..8];
    assert fields[0] == ts[0] && fields[1] == ts[1] && fields[2] == ts[2] && fields[3] == ts[3];
    assert fields[4] == ts[4] && fields[5] == ts[5] && fields[6] == ts[6] && fields[7] == ts[7];
    if id.None? || tx.None? || ty.None? || tz.None? || qx.None? || qy.None? || qz.None? || qw.None? {
      return None;
    }
    entry := Some((id.value, Transform(Float3(tx.value, ty.value, tz.value),
                                       Float4(qx.value, qy.value, qz.value, qw.value))));
  }

  /** Empty lines and lines starting with `#` contribute nothing. */
  lemma SkippedLinesGiveNoEntry<F>(conv: Converters<F>, line: string)
    requires IsSkippedLine(line)
    ensures ParseLine(conv, line) == None
  {
  }

  /**
   * A line is accepted exactly when it is not skipped, has at least eight
   * words and its first eight convert; the entry then comes from those eight.
   */
  lemma ParseLineAccepts<F>(conv: Converters<F>, line: string)
    ensures ParseLine(conv, line).Some? <==>
      !IsSkippedLine(line) && |Tokens(line)| >= 8 && Converts(conv, Tokens(line)[..8])
    ensures ParseLine(conv, line).Some? ==>
      var ts := Tokens(line);
      && conv.stoi(ts[0]) == Some(ParseLine(conv, line).value.0)
      && conv.stof(ts[1]) == Some(ParseLine(conv, line).value.1.translation.x)
      && conv.stof(ts[2]) == Some(ParseLine(conv, line).value.1.translation.y)
      && conv.stof(ts[3]) == Some(ParseLine(conv, line).value.1.translation.z)
      && conv.stof(ts[4]) == Some(ParseLine(conv, line).value.1.orientation.x)
      && conv.stof(ts[5]) == Some(ParseLine(conv, line).value.1.orientation.y)
      && conv.stof(ts[6]) == Some(ParseLine(conv, line).value.1.orientation.z)
      && conv.stof(ts[7]) == Some(ParseLine(conv, line).value.1.orientation.w)
  {
  }

  /** Words after the eighth are ignored. */
  lemma OnlyFirstEightWordsMatter<F>(conv: Converters<F>, a: string, b: string)
    requires !IsSkippedLine(a) && !IsSkippedLine(b)
    requires |Tokens(a)| >= 8 && |Tokens(b)| >= 8
    requires Tokens(a)[..8] == Tokens(b)[..8]
    ensures ParseLine(conv, a) == ParseLine(conv, b)
  {
  }

  /** Dropping a line that gives no entry, anywhere among the data lines, leaves the table unchanged. */
  lemma {:induction false} LineWithoutEntryChangesNothing<F>(
    conv: Converters<F>, before: seq<string>, line: string, after: seq<string>)
    requires ParseLine(conv, line) == None
    ensures TableOf(conv, before + [line] + after) == TableOf(conv, before + after)
    decreases |after|
  {
    if after == [] {
      assert (before + [line] + after)[..|before|] == before;
      assert before + after == before;
    } else {
      var s, t := before + [line] + after, before + after;
      var last := after[|after| - 1];
      var shorter := after[..|after| - 1];
      assert s[..|s| - 1] == before + [line] + shorter;
      assert t[..|t| - 1] == before + shorter;
      assert s[|s| - 1] == last && t[|t| - 1] == last;
      LineWithoutEntryChangesNothing(conv, before, line, shorter);
    }
  }

  /** Some line of `body` is accepted and gives marker `id`. */
  ghost predicate AcceptedIn<F>(conv: Converters<F>, body: seq<string>, id: int) {
    exists j :: 0 <= j < |body| && Accepts(conv, body[j], id)
  }

  /** The ids in the table are exactly the ids of the accepted lines. */
  lemma {:induction false} KeysAreAcceptedIds<F>(conv: Converters<F>, body: seq<string>, id: int)
    ensures id in TableOf(conv, body) <==> AcceptedIn(conv, body, id)
    decreases |body|
  {
    if body != [] {
      var prefix, last := body[..|body| - 1], body[|body| - 1];
      KeysAreAcceptedIds(conv, prefix, id);
      InsertKeys(TableOf(conv, prefix), ParseLine(conv, last), id);
      assert body == prefix + [last];
      AcceptedInAppend(conv, prefix, last, id);
    }
  }

  lemma AcceptedInAppend<F>(conv: Converters<F>, prefix: seq<string>, last: string, id: int)
    ensures AcceptedIn(conv, prefix + [last], id) <==> AcceptedIn(conv, prefix, id) || Accepts(conv, last, id)
  {
    var body := prefix + [last];
    if AcceptedIn(conv, body, id) {
      var j :| 0 <= j < |body| && Accepts(conv, body[j], id);
      if j < |prefix| {
        assert prefix[j] == body[j];
      }
    }
    if AcceptedIn(conv, prefix, id) {
      var j :| 0 <= j < |prefix| && Accepts(conv, prefix[j], id);
      assert body[j] == prefix[j];
    }
    assert body[|prefix|] == last;
  }

  lemma InsertKeys<F>(m: map<int, Transform<F>>, e: Option<Entry<F>>, id: int)
    ensures id in Insert(m, e) <==> id in m || (e.Some? && e.value.0 == id)
  {
  }

  /** For a repeated id, the transform comes from the last accepted line with that id. */
  lemma {:induction false} LastAcceptedLineWins<F>(conv: Converters<F>, body: seq<string>, j: int, id: int)
    requires 0 <= j < |body| && Accepts(conv, body[j], id)
    requires forall k :: j < k < |body| ==> !Accepts(conv, body[k], id)
    ensures id in TableOf(conv, body)
    ensures TableOf(conv, body)[id] == ParseLine(conv, body[j]).value.1
    decreases |body|
  {
    var prefix := body[..|body| - 1];
    if j < |body| - 1 {
      assert prefix[j] == body[j];
      forall k | j < k < |prefix| ensures !Accepts(conv, prefix[k], id) {
        assert prefix[k] == body[k];
      }
      LastAcceptedLineWins(conv, prefix, j, id);
      assert !Accepts(conv, body[|body| - 1], id);
    }
  }

  /** The header line never contributes, even when it would be a valid data line. */
  lemma HeaderIsDiscarded<F>(conv: Converters<F>, fs: FileSystem, filename: string,
                             header: string, body: seq<string>)
    requires forall i, j :: 0 <= i < |[header] + body| && 0 <= j < |([header] + body)[i]| ==>
      ([header] + body)[i][j] != '\n'
    requires filename in fs && fs[filename] == Terminated([header] + body)
    ensures ReadTransforms(conv, fs, filename) == TableOf(conv, body)
  {
    LinesOfTerminated([header] + body);
    assert ([header] + body)[1..] == body;
  }

  /** A file with at most one line, the header, gives the empty table. */
  lemma HeaderOnlyGivesEmptyTable<F>(conv: Converters<F>, fs: FileSystem, filename: string)
    requires filename in fs && |Lines(fs[filename])| <= 1
    ensures ReadTransforms(conv, fs, filename) == map[]
  {
    var lines := Lines(fs[filename]);
    if lines != [] {
      assert lines[1..] == [];
    }
  }
}
