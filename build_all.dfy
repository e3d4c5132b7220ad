/*
 * `getChapters` of the script that builds every chapter's kanban app: the
 * chapter directories of each book part, the names derived from them, and
 * the input and output paths of each build. The directory listing and the
 * existence check are parameters.
 */
module BuildAll {

  /** The book parts whose chapters are built, in build order. */
  const Parts: seq<string> := ["getting_started", "implementing_kanban"]

  /** One build: the part, the chapter's name, the app's directory and the build directory. */
  datatype Chapter = Chapter(part: string, chapter: string, inputPath: string, outputPath: string)

  // ---------------------------------------------------------------------
  // String helpers: `split`, `join` and `replace(/_/g, '-')`
  // ---------------------------------------------------------------------

  /** `s.split(sep)` for a one-character separator: the pieces between separators, at least one. */
  function Split(s: string, sep: char): (r: seq<string>)
    ensures |r| >= 1
    ensures forall k :: 0 <= k < |r| ==> sep !in r[k]
  {
    if s == [] then [""]
    else if s[0] == sep then [""] + Split(s[1..], sep)
    else
      var rest := Split(s[1..], sep);
      [[s[0]] + rest[0]] + rest[1..]
  }

  /** `pieces.join(sep)`; the empty list joins to the empty string. */
  function Join(pieces: seq<string>, sep: char): string
  {
    if pieces == [] then ""
    else if |pieces| == 1 then pieces[0]
    else pieces[0] + [sep] + Join(pieces[1..], sep)
  }

  /** Joining the pieces of a split with the same separator gives back the string. */
  lemma {:induction false} JoinSplit(s: string, sep: char)
    ensures Join(Split(s, sep), sep) == s
  {
    if s != [] {
      JoinSplit(s[1..], sep);
      var rest := Split(s[1..], sep);
      if s[0] == sep {
        assert Split(s, sep)[1..] == rest;
        assert s == [sep] + s[1..];
      } else {
        var r := Split(s, sep);
        assert r[1..] == rest[1..];
        if |rest| == 1 {
          assert s == [s[0]] + rest[0];
        } else {
          assert Join(rest, sep) == rest[0] + [sep] + Join(rest[1..], sep);
          assert s == [s[0]] + rest[0] + [sep] + Join(rest[1..], sep);
        }
      }
    }
  }

  /** Every '_' turned into '-', as `replace(/_/g, '-')` does. */
  function Dashes(s: string): (r: string)
    ensures |r| == |s|
    ensures forall k :: 0 <= k < |s| ==> r[k] == if s[k] == '_' then '-' else s[k]
    ensures '_' !in r
  {
    if s == [] then [] else [if s[0] == '_' then '-' else s[0]] + Dashes(s[1..])
  }

  // ---------------------------------------------------------------------
  // `parseInt(file.split('_')[0], 10)` as a filter condition
  // ---------------------------------------------------------------------

  /** The whitespace `parseInt` skips before the number (the ASCII part of it). */
  predicate IsSpace(c: char)
  {
    c == ' ' || c == '\t' || c == '\n' || c == '\r' || c == '\U{B}' || c == '\U{C}'
  }

  predicate IsDigit(c: char)
  {
    '0' <= c <= '9'
  }

  /** The string with its leading whitespace dropped. */
  function TrimStart(s: string): (r: string)
    ensures |r| <= |s| && r == s[|s| - |r|..]
    ensures r != [] ==> !IsSpace(r[0])
    ensures forall i :: 0 <= i < |s| - |r| ==> IsSpace(s[i])
  {
    if s != [] && IsSpace(s[0]) then TrimStart(s[1..]) else s
  }

  /** The length of the longest prefix of `s` made of decimal digits. */
  function DigitRun(s: string): (n: nat)
    ensures n <= |s|
    ensures forall k :: 0 <= k < n ==> IsDigit(s[k])
    ensures n < |s| ==> !IsDigit(s[n])
  {
    if s == [] || !IsDigit(s[0]) then 0 else 1 + DigitRun(s[1..])
  }

  /** The value of a string of decimal digits. */
  function DigitsValue(digits: string): nat
    requires forall k :: 0 <= k < |digits| ==> IsDigit(digits[k])
  {
    if digits == [] then 0
    else
      assert IsDigit(digits[|digits| - 1]);
      10 * DigitsValue(digits[..|digits| - 1]) + (digits[|digits| - 1] as int - '0' as int) as nat
  }

  /**
   * `parseInt(s, 10)` is truthy: after whitespace and an optional sign come
   * digits (otherwise the result is NaN) whose value is not zero (otherwise 0 or -0).
   */
  predicate ParsesNonZero(s: string)
  {
    var t := TrimStart(s);
    var u := if t != [] && (t[0] == '+' || t[0] == '-') then t[1..] else t;
    DigitRun(u) > 0 && DigitsValue(u[..DigitRun(u)]) != 0
  }

  /** A string of digits has a non-zero value exactly when one of its digits is not '0'. */
  lemma {:induction false} DigitsValueNonZero(digits: string)
    requires forall k :: 0 <= k < |digits| ==> IsDigit(digits[k])
    ensures DigitsValue(digits) != 0 <==> exists k :: 0 <= k < |digits| && digits[k] != '0'
  {
    if digits != [] {
      var init := digits[..|digits| - 1];
      DigitsValueNonZero(init);
      if exists k :: 0 <= k < |init| && init[k] != '0' {
        var k :| 0 <= k < |init| && init[k] != '0';
        assert digits[k] == init[k];
      }
      if exists k :: 0 <= k < |digits| && digits[k] != '0' {
        var k :| 0 <= k < |digits| && digits[k] != '0';
        if k < |init| {
          assert init[k] == digits[k];
        }
      }
    }
  }

  /** The leading run of digits of `u` has a non-zero value exactly when one of those digits is not '0'. */
  lemma {:induction false} LeadingDigitsNonZero(u: string)
    ensures (DigitRun(u) > 0 && DigitsValue(u[..DigitRun(u)]) != 0) <==> exists k :: 0 <= k < DigitRun(u) && u[k] != '0'
  {
    var d := u[..DigitRun(u)];
    DigitsValueNonZero(d);
    if exists k :: 0 <= k < |d| && d[k] != '0' {
      var k :| 0 <= k < |d| && d[k] != '0';
      assert u[k] == d[k];
    }
    if exists k :: 0 <= k < DigitRun(u) && u[k] != '0' {
      var k :| 0 <= k < DigitRun(u) && u[k] != '0';
      assert d[k] == u[k];
    }
  }

  /** So a name is kept when its leading number has a digit other than '0': `0_x` and `x_1` are dropped. */
  lemma {:induction false} ParsesNonZeroDigits(s: string)
    ensures var t := TrimStart(s);
      var u := if t != [] && (t[0] == '+' || t[0] == '-') then t[1..] else t;
      ParsesNonZero(s) <==> exists k :: 0 <= k < DigitRun(u) && u[k] != '0'
  {
    var t := TrimStart(s);
    var u := if t != [] && (t[0] == '+' || t[0] == '-') then t[1..] else t;
    LeadingDigitsNonZero(u);
  }

  // ---------------------------------------------------------------------
  // Names and paths
  // ---------------------------------------------------------------------

  /** `file.split('_')[0]`: the text before the first '_'. */
  function LeadingSegment(file: string): string
  {
    Split(file, '_')[0]
  }

  /** The leading segment of `prefix_rest` is `prefix` when `prefix` has no '_'. */
  lemma {:induction false} LeadingSegmentOf(prefix: string, rest: string)
    requires '_' !in prefix
    ensures LeadingSegment(prefix + "_" + rest) == prefix
  {
    var s := prefix + "_" + rest;
    if prefix == [] {
      assert s == "_" + rest;
    } else {
      assert s[0] == prefix[0] != '_';
      assert s[1..] == prefix[1..] + "_" + rest;
      LeadingSegmentOf(prefix[1..], rest);
      assert prefix == [prefix[0]] + prefix[1..];
    }
  }

  /** A directory entry is a chapter when its leading segment parses to a non-zero number. */
  predicate IsChapterEntry(file: string)
  {
    ParsesNonZero(LeadingSegment(file))
  }

  /** `chapter.split('_').slice(1).join('_').replace(/_/g, '-')`. */
  function ChapterName(chapter: string): string
  {
    Dashes(Join(Split(chapter, '_')[1..], '_'))
  }

  /** `part.replace(/_/g, '-')`. */
  function PartName(part: string): string
  {
    Dashes(part)
  }

  /** The split-slice-join drops the leading segment and the first '_'; a name without '_' leaves nothing. */
  lemma {:induction false} ChapterNameDropsLeadingSegment(chapter: string)
    ensures '_' !in chapter ==> ChapterName(chapter) == ""
    ensures '_' in chapter ==>
      chapter == LeadingSegment(chapter) + "_" + Join(Split(chapter, '_')[1..], '_')
    ensures '_' !in ChapterName(chapter)
  {
    var pieces := Split(chapter, '_');
    JoinSplit(chapter, '_');
    if |pieces| == 1 {
      assert Join(pieces, '_') == pieces[0];
      assert '_' !in chapter;
      assert pieces[1..] == [];
    } else {
      assert Join(pieces, '_') == pieces[0] + ['_'] + Join(pieces[1..], '_');
      assert chapter[|pieces[0]|] == '_';
    }
  }

  /** `path.join` of path segments, without the normalisation. */
  function JoinPath(segments: seq<string>): string
  {
    Join(segments, '/')
  }

  function InputPath(dirname: string, part: string, chapter: string): string
  {
    JoinPath([dirname, part, chapter, "kanban-app"])
  }

  function OutputPath(dirname: string, part: string, chapter: string): string
  {
    JoinPath([dirname, "builds", PartName(part), ChapterName(chapter)])
  }

  function ToChapter(dirname: string, part: string, chapter: string): Chapter
  {
    Chapter(part, ChapterName(chapter), InputPath(dirname, part, chapter), OutputPath(dirname, part, chapter))
  }

  // ---------------------------------------------------------------------
  // getChapters: filter the listing, map to builds, filter on existence
  // ---------------------------------------------------------------------

  /** `readdirSync(part).filter(...)`: the entries that are chapters, in listing order. */
  function ChapterEntries(entries: seq<string>): (r: seq<string>)
    ensures |r| <= |entries|
    ensures forall k :: 0 <= k < |r| ==> IsChapterEntry(r[k]) && r[k] in entries
  {
    if entries == [] then []
    else
      var rest := ChapterEntries(entries[1..]);
      assert forall k :: 0 <= k < |rest| ==> rest[k] in entries by {
        forall k | 0 <= k < |rest| ensures rest[k] in entries {
          assert rest[k] in entries[1..];
        }
      }
      if IsChapterEntry(entries[0]) then [entries[0]] + rest else rest
  }

  /** `chapters.map(...)`: one build description per chapter entry. */
  function ToChapters(dirname: string, part: string, chapters: seq<string>): (r: seq<Chapter>)
    ensures |r| == |chapters|
  {
    if chapters == [] then [] else [ToChapter(dirname, part, chapters[0])] + ToChapters(dirname, part, chapters[1..])
  }

  /** `.filter(o => fs.existsSync(o.inputPath))`. */
  function Existing(builds: seq<Chapter>, pathExists: string -> bool): (r: seq<Chapter>)
    ensures |r| <= |builds|
    ensures forall k :: 0 <= k < |r| ==> pathExists(r[k].inputPath) && r[k] in builds
  {
    if builds == [] then []
    else if pathExists(builds[0].inputPath) then [builds[0]] + Existing(builds[1..], pathExists)
    else Existing(builds[1..], pathExists)
  }

  /** The builds of one part. */
  function PartChapters(dirname: string, part: string, listDir: string -> seq<string>, pathExists: string -> bool): seq<Chapter>
  {
    Existing(ToChapters(dirname, part, ChapterEntries(listDir(part))), pathExists)
  }

  /** `_.concat.apply(null, xs.map(f))`: the lists `f` gives for the elements, one after the other. */
  function ConcatMap<T, U>(xs: seq<T>, f: T -> seq<U>): seq<U>
  {
    if xs == [] then [] else f(xs[0]) + ConcatMap(xs[1..], f)
  }

  /** `getChapters(parts)`: the builds of every part, part after part. */
  function GetChapters(parts: seq<string>, dirname: string, listDir: string -> seq<string>, pathExists: string -> bool): seq<Chapter>
  {
    ConcatMap(parts, part => PartChapters(dirname, part, listDir, pathExists))
  }

  /**
   * The same builds in one pass over a part's entries: an entry gives a
   * build exactly when it is a chapter and its app directory exists.
   */
  function Select(dirname: string, part: string, entries: seq<string>, pathExists: string -> bool): seq<Chapter>
  {
    if entries == [] then []
    else if IsChapterEntry(entries[0]) && pathExists(InputPath(dirname, part, entries[0])) then
      [ToChapter(dirname, part, entries[0])] + Select(dirname, part, entries[1..], pathExists)
    else Select(dirname, part, entries[1..], pathExists)
  }

  /** Filtering, mapping and filtering again is the one-pass selection. */
  lemma {:induction false} PartChaptersIsSelect(dirname: string, part: string, entries: seq<string>, pathExists: string -> bool)
    ensures Existing(ToChapters(dirname, part, ChapterEntries(entries)), pathExists) == Select(dirname, part, entries, pathExists)
  {
    if entries != [] {
      PartChaptersIsSelect(dirname, part, entries[1..], pathExists);
      if IsChapterEntry(entries[0]) {
        assert ChapterEntries(entries) == [entries[0]] + ChapterEntries(entries[1..]);
        var rest := ChapterEntries(entries[1..]);
        assert ([entries[0]] + rest)[1..] == rest;
      }
    }
  }

  /** Every build comes from a listed chapter entry whose app directory exists, and is named and placed after it. */
  lemma {:induction false} SelectSound(dirname: string, part: string, entries: seq<string>, pathExists: string -> bool)
    ensures forall c :: c in Select(dirname, part, entries, pathExists) ==>
      exists e :: e in entries && IsChapterEntry(e) && pathExists(InputPath(dirname, part, e)) && c == ToChapter(dirname, part, e)
  {
    if entries != [] {
      SelectSound(dirname, part, entries[1..], pathExists);
      forall c | c in Select(dirname, part, entries, pathExists)
        ensures exists e :: e in entries && IsChapterEntry(e) && pathExists(InputPath(dirname, part, e)) && c == ToChapter(dirname, part, e)
      {
        var rest := Select(dirname, part, entries[1..], pathExists);
        if c in rest {
          var e :| e in entries[1..] && IsChapterEntry(e) && pathExists(InputPath(dirname, part, e)) && c == ToChapter(dirname, part, e);
          assert e in entries;
        } else {
          assert c == ToChapter(dirname, part, entries[0]);
          assert entries[0] in entries;
        }
      }
    }
  }

  /** And every listed chapter entry whose app directory exists gives a build. */
  lemma {:induction false} SelectComplete(dirname: string, part: string, entries: seq<string>, pathExists: string -> bool, e: string)
    requires e in entries && IsChapterEntry(e) && pathExists(InputPath(dirname, part, e))
    ensures ToChapter(dirname, part, e) in Select(dirname, part, entries, pathExists)
  {
    if entries[0] != e {
      assert e in entries[1..];
      SelectComplete(dirname, part, entries[1..], pathExists, e);
    }
  }

  /** Concatenating over two lists of elements is concatenating the two results. */
  lemma {:induction false} ConcatMapAppend<T, U>(xs: seq<T>, ys: seq<T>, f: T -> seq<U>)
    ensures ConcatMap(xs + ys, f) == ConcatMap(xs, f) + ConcatMap(ys, f)
  {
    if xs == [] {
      assert xs + ys == ys;
    } else {
      assert (xs + ys)[0] == xs[0];
      assert (xs + ys)[1..] == xs[1..] + ys;
      ConcatMapAppend(xs[1..], ys, f);
    }
  }

  /** So the builds of a list of parts are those of its first parts followed by those of the rest. */
  lemma {:induction false} GetChaptersConcat(ps: seq<string>, qs: seq<string>, dirname: string, listDir: string -> seq<string>, pathExists: string -> bool)
    ensures GetChapters(ps + qs, dirname, listDir, pathExists) == GetChapters(ps, dirname, listDir, pathExists) + GetChapters(qs, dirname, listDir, pathExists)
  {
    ConcatMapAppend(ps, qs, part => PartChapters(dirname, part, listDir, pathExists));
  }

  /**
   * What a build looks like: its part is one of the parts, its app directory
   * exists and is `dirname/part/<entry>/kanban-app`, its name has no '_', and
   * it is written to `dirname/builds/<part name>/<chapter name>`.
   */
  lemma {:induction false} GetChaptersShape(parts: seq<string>, dirname: string, listDir: string -> seq<string>, pathExists: string -> bool)
    ensures forall c :: c in GetChapters(parts, dirname, listDir, pathExists) ==>
      && c.part in parts
      && pathExists(c.inputPath)
      && '_' !in c.chapter
      && c.outputPath == JoinPath([dirname, "builds", PartName(c.part), c.chapter])
      && exists e :: e in listDir(c.part) && IsChapterEntry(e) && c.inputPath == InputPath(dirname, c.part, e)
  {
    if parts != [] {
      GetChaptersShape(parts[1..], dirname, listDir, pathExists);
      var part := parts[0];
      PartChaptersIsSelect(dirname, part, listDir(part), pathExists);
      SelectSound(dirname, part, listDir(part), pathExists);
      forall c | c in PartChapters(dirname, part, listDir, pathExists)
        ensures '_' !in c.chapter
      {
        var e :| e in listDir(part) && IsChapterEntry(e) && pathExists(InputPath(dirname, part, e)) && c == ToChapter(dirname, part, e);
        ChapterNameDropsLeadingSegment(e);
      }
    }
  }
}
