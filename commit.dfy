/**
 * The commit path of src/git/commit.rs: per-file line counting over a diff,
 * the change-log body, the commit message, and the parent and identity
 * choice made before the commit is written.
 *
 * The diff is given as the sequence of line events the diff printer hands to
 * its callback; the HEAD commit and the configured name and e-mail are
 * given as optional inputs, and the timestamp as an opaque string.
 */
module Commit {
  import opened Wrappers
  import opened Format

  /** Counters kept per file: lines added (`+`), removed (`-`) and context lines (` `). */
  datatype Counts = Counts(added: nat, removed: nat, context: nat)

  /**
   * One call of the diff callback: the new-file path of the delta, if it
   * has one, and the origin character of the line (`+`, `-`, ` `, or one
   * of the header and end-of-file markers).
   */
  datatype LineEvent = LineEvent(path: Option<string>, origin: char)

  const NoCounts := Counts(0, 0, 0)

  // ---------------------------------------------------------------------------
  // Reference definition of the aggregation
  // ---------------------------------------------------------------------------

  /** How many events carry path `file` and origin `origin`. */
  ghost function Occurrences(events: seq<LineEvent>, file: string, origin: char): nat
  {
    if events == [] then 0
    else
      Occurrences(events[..|events| - 1], file, origin)
      + (if events[|events| - 1] == LineEvent(Some(file), origin) then 1 else 0)
  }

  /** The paths carried by the events. */
  ghost function Files(events: seq<LineEvent>): set<string>
  {
    if events == [] then {}
    else
      var last := events[|events| - 1];
      Files(events[..|events| - 1]) + (if last.path.Some? then {last.path.value} else {})
  }

  /** What the aggregation should produce: one entry per path seen, holding its three counts. */
  ghost function Summary(events: seq<LineEvent>): map<string, Counts>
  {
    map f | f in Files(events) ::
      Counts(Occurrences(events, f, '+'), Occurrences(events, f, '-'), Occurrences(events, f, ' '))
  }

  /** The entry `f` has before an event, with `or_insert((0, 0, 0))` applied. */
  function EntryOrZero(changes: map<string, Counts>, f: string): Counts
  {
    if f in changes then changes[f] else NoCounts
  }

  /**
   * What one diff line does to the summary: nothing when the delta has no
   * new-file path; otherwise the path gets an entry (starting from zero), the
   * one counter named by the origin goes up by one, and every other file
   * keeps its entry.
   */
  lemma SummaryStep(events: seq<LineEvent>, e: LineEvent)
    ensures e.path.None? ==> Summary(events + [e]) == Summary(events)
    ensures e.path.Some? ==>
      var before, after, f := Summary(events), Summary(events + [e]), e.path.value;
      && after.Keys == before.Keys + {f}
      && (forall g :: g in before && g != f ==> after[g] == before[g])
      && after[f].added == EntryOrZero(before, f).added + (if e.origin == '+' then 1 else 0)
      && after[f].removed == EntryOrZero(before, f).removed + (if e.origin == '-' then 1 else 0)
      && after[f].context == EntryOrZero(before, f).context + (if e.origin == ' ' then 1 else 0)
  {
    var t := events + [e];
    assert t[..|t| - 1] == events;
    if e.path.None? {
      assert Files(t) == Files(events);
      forall g, o ensures Occurrences(t, g, o) == Occurrences(events, g, o) {
      }
    } else {
      var f := e.path.value;
      if f !in Files(events) {
        OccurrencesOutsideFiles(events, f, '+');
        OccurrencesOutsideFiles(events, f, '-');
        OccurrencesOutsideFiles(events, f, ' ');
      }
    }
  }

  lemma {:induction false} OccurrencesOutsideFiles(events: seq<LineEvent>, f: string, origin: char)
    requires f !in Files(events)
    ensures Occurrences(events, f, origin) == 0
  {
    if events != [] {
      OccurrencesOutsideFiles(events[..|events| - 1], f, origin);
    }
  }

  /**
   * The first line of a file creates its entry at zero even when it is a
   * header line, whose origin is none of `+`, `-` and ` `.
   */
  lemma HeaderLineCreatesZeroEntry(events: seq<LineEvent>, f: string, origin: char)
    requires f !in Summary(events)
    requires origin != '+' && origin != '-' && origin != ' '
    ensures f in Summary(events + [LineEvent(Some(f), origin)])
    ensures Summary(events + [LineEvent(Some(f), origin)])[f] == NoCounts
  {
    SummaryStep(events, LineEvent(Some(f), origin));
  }

  /** The count of an (path, origin) pair is the multiplicity of that event in the diff. */
  lemma {:induction false} OccurrencesIsMultiplicity(events: seq<LineEvent>, f: string, origin: char)
    ensures Occurrences(events, f, origin) == multiset(events)[LineEvent(Some(f), origin)]
  {
    if events != [] {
      var front := events[..|events| - 1];
      OccurrencesIsMultiplicity(front, f, origin);
      assert events == front + [events[|events| - 1]];
    }
  }

  /** The files seen are the paths of the events, whatever their order. */
  lemma {:induction false} FilesArePaths(events: seq<LineEvent>)
    ensures forall f :: f in Files(events) <==> Some(f) in PathsOf(multiset(events))
  {
    if events != [] {
      var front := events[..|events| - 1];
      FilesArePaths(front);
      assert events == front + [events[|events| - 1]];
      assert multiset(events) == multiset(front) + multiset{events[|events| - 1]};
    }
  }

  ghost function PathsOf(m: multiset<LineEvent>): set<Option<string>>
  {
    set e | e in m :: e.path
  }

  /** Feeding the same multiset of line events in any order gives the same summary. */
  lemma SummaryOrderIndependent(a: seq<LineEvent>, b: seq<LineEvent>)
    requires multiset(a) == multiset(b)
    ensures Summary(a) == Summary(b)
  {
    FilesArePaths(a);
    FilesArePaths(b);
    assert Files(a) == Files(b);
    forall f, o ensures Occurrences(a, f, o) == Occurrences(b, f, o) {
      OccurrencesIsMultiplicity(a, f, o);
      OccurrencesIsMultiplicity(b, f, o);
    }
  }

  // ---------------------------------------------------------------------------
  // The aggregation loop
  // ---------------------------------------------------------------------------

  /**
   * The `diff.print` callback run over every line: the map of per-file
   * counters, updated in place one line at a time.
   */
  method Aggregate(events: seq<LineEvent>) returns (changes: map<string, Counts>)
    ensures changes == Summary(events)
  {
    changes := map[];
    assert Summary(events[..0]) == map[];
    var i := 0;
    while i < |events|
      invariant 0 <= i <= |events|
      invariant changes == Summary(events[..i])
    {
      var e := events[i];
      SummaryStep(events[..i], e);
      assert events[..i + 1] == events[..i] + [e];
      if e.path.Some? {
        var file := e.path.value;
        var entry := EntryOrZero(changes, file);
        match e.origin {
          case '+' => entry := entry.(added := entry.added + 1);
          case '-' => entry := entry.(removed := entry.removed + 1);
          case ' ' => entry := entry.(context := entry.context + 1);
          case _ =>
        }
        changes := changes[file := entry];
      }
      i := i + 1;
    }
    assert events[..|events|] == events;
  }

  // ---------------------------------------------------------------------------
  // Rendering
  // ---------------------------------------------------------------------------

  /**
   * The log line of one file: its path, then `+`, `-` and `~` each before
   * one counter in decimal. The line starts with the path, ends with a
   * counter digit, and holds no newline after the path.
   */
  function Line(file: string, c: Counts): (l: string)
    ensures |l| > |file| && l[..|file|] == file
    ensures IsDigit(l[|l| - 1])
    ensures '\n' !in l[|file|..]
  {
    var a, r, u := Decimal(c.added), Decimal(c.removed), Decimal(c.context);
    var fields := " +" + a + " -" + r + " ~" + u;
    assert '\n' !in fields by {
      forall j | 0 <= j < |a| ensures a[j] != '\n' { assert IsDigit(a[j]); }
      forall j | 0 <= j < |r| ensures r[j] != '\n' { assert IsDigit(r[j]); }
      forall j | 0 <= j < |u| ensures u[j] != '\n' { assert IsDigit(u[j]); }
    }
    assert (file + fields)[|file|..] == fields;
    file + fields
  }

  /** Splits a string into its longest all-digit suffix and what stands before it. */
  function SplitTrailingDigits(s: string): (r: (string, string))
    ensures r.0 + r.1 == s && AllDigits(r.1)
  {
    if s != [] && IsDigit(s[|s| - 1]) then
      var (p, d) := SplitTrailingDigits(s[..|s| - 1]);
      assert p + (d + [s[|s| - 1]]) == s[..|s| - 1] + [s[|s| - 1]] == s;
      (p, d + [s[|s| - 1]])
    else
      (s, "")
  }

  lemma {:induction false} SplitTrailingDigitsOf(front: string, digits: string)
    requires AllDigits(digits)
    requires front == [] || !IsDigit(front[|front| - 1])
    ensures SplitTrailingDigits(front + digits) == (front, digits)
  {
    var s := front + digits;
    if digits != [] {
      var d0 := digits[..|digits| - 1];
      assert s[..|s| - 1] == front + d0;
      SplitTrailingDigitsOf(front, d0);
      assert d0 + [digits[|digits| - 1]] == digits;
    } else {
      assert s == front;
    }
  }

  /** Reads `<rest> <marker><digits>` off the end of a string. */
  function ParseField(s: string, marker: char): Option<(string, nat)>
  {
    var (p, d) := SplitTrailingDigits(s);
    if |d| > 0 && |p| >= 2 && p[|p| - 2] == ' ' && p[|p| - 1] == marker then
      Some((p[..|p| - 2], ParseDecimal(d)))
    else
      None
  }

  /** Reads a change-log line back into its file and counters, from the right. */
  function ParseLine(line: string): Option<(string, Counts)>
  {
    match ParseField(line, '~')
    case None => None
    case Some((s1, u)) =>
      match ParseField(s1, '-')
      case None => None
      case Some((s2, r)) =>
        match ParseField(s2, '+')
        case None => None
        case Some((file, a)) => Some((file, Counts(a, r, u)))
  }

  lemma ParseFieldOf(rest: string, marker: char, n: nat)
    requires !IsDigit(marker)
    ensures ParseField(rest + [' ', marker] + Decimal(n), marker) == Some((rest, n))
  {
    var front := rest + [' ', marker];
    SplitTrailingDigitsOf(front, Decimal(n));
    assert front[..|front| - 2] == rest;
  }

  /**
   * A change-log line determines its file and its counters: whatever the
   * file name holds, the line reads back as exactly what was rendered.
   */
  lemma LineRoundTrip(file: string, c: Counts)
    ensures ParseLine(Line(file, c)) == Some((file, c))
  {
    var s2 := file;
    var s1 := s2 + " +" + Decimal(c.added);
    var s0 := s1 + " -" + Decimal(c.removed);
    assert Line(file, c) == s0 + " ~" + Decimal(c.context);
    ParseFieldOf(s0, '~', c.context);
    ParseFieldOf(s1, '-', c.removed);
    ParseFieldOf(s2, '+', c.added);
  }

  lemma LineInjective(f: string, c: Counts, g: string, d: Counts)
    requires Line(f, c) == Line(g, d)
    ensures f == g && c == d
  {
    LineRoundTrip(f, c);
    LineRoundTrip(g, d);
  }

  /** `l` is the rendered line of one of the files `among`. */
  ghost predicate IsLineOf(l: string, changes: map<string, Counts>, among: set<string>)
  {
    exists f :: f in among && f in changes && l == Line(f, changes[f])
  }

  /** `lines` holds exactly one line per file of `changes`, in some order. */
  ghost predicate ListsEachFileOnce(lines: seq<string>, changes: map<string, Counts>)
  {
    && |lines| == |changes|
    && (forall f :: f in changes ==> Line(f, changes[f]) in lines)
    && (forall l :: l in lines ==> IsLineOf(l, changes, changes.Keys))
    && (forall j, k :: 0 <= j < k < |lines| ==> lines[j] != lines[k])
  }

  /**
   * Lines rendered from distinct files, in the order `order`, list each file
   * once when `order` covers every file of the map.
   */
  lemma RenderedInOrder(lines: seq<string>, order: seq<string>, changes: map<string, Counts>)
    requires |order| == |lines| == |changes|
    requires forall j :: 0 <= j < |order| ==> order[j] in changes && lines[j] == Line(order[j], changes[order[j]])
    requires forall f :: f in changes ==> f in order
    requires forall j, k :: 0 <= j < k < |order| ==> order[j] != order[k]
    ensures ListsEachFileOnce(lines, changes)
  {
    forall f | f in changes ensures Line(f, changes[f]) in lines {
      var j :| 0 <= j < |order| && order[j] == f;
      assert lines[j] == Line(f, changes[f]);
    }
    forall l | l in lines ensures IsLineOf(l, changes, changes.Keys) {
      var j :| 0 <= j < |lines| && lines[j] == l;
      assert order[j] in changes.Keys;
    }
    forall j, k | 0 <= j < k < |lines| ensures lines[j] != lines[k] {
      if lines[j] == lines[k] {
        LineInjective(order[j], changes[order[j]], order[k], changes[order[k]]);
      }
    }
  }

  /**
   * The `for` loop over the counter map: one rendered line per file, in
   * the map's iteration order, which the model leaves open.
   */
  method ChangeLines(changes: map<string, Counts>) returns (lines: seq<string>)
    ensures ListsEachFileOnce(lines, changes)
  {
    lines := [];
    var remaining := changes.Keys;
    ghost var order: seq<string> := [];
    while remaining != {}
      invariant remaining <= changes.Keys
      invariant |order| == |lines| && |lines| + |remaining| == |changes|
      invariant forall j :: 0 <= j < |order| ==> order[j] in changes && order[j] !in remaining
      invariant forall j :: 0 <= j < |order| ==> lines[j] == Line(order[j], changes[order[j]])
      invariant forall f :: f in changes && f !in remaining ==> f in order
      invariant forall j, k :: 0 <= j < k < |order| ==> order[j] != order[k]
      decreases remaining
    {
      var file :| file in remaining;
      lines := lines + [Line(file, changes[file])];
      order := order + [file];
      remaining := remaining - {file};
    }
    RenderedInOrder(lines, order, changes);
  }

  /** `log` renders `changes`: one line per file, in some order, joined by newlines. */
  ghost predicate IsChangeLog(log: string, changes: map<string, Counts>)
  {
    exists lines :: ListsEachFileOnce(lines, changes) && log == Join(lines, "\n")
  }

  /** `get_change_logs`, from the point where the diff is available. */
  method GetChangeLogs(events: seq<LineEvent>) returns (log: string)
    ensures IsChangeLog(log, Summary(events))
  {
    var changes := Aggregate(events);
    var lines := ChangeLines(changes);
    log := Join(lines, "\n");
    assert ListsEachFileOnce(lines, changes) && log == Join(lines, "\n");
  }

  /** A join of file lines, when there is at least one, ends with a counter digit. */
  lemma JoinedLinesEndWithDigit(log: string, lines: seq<string>, changes: map<string, Counts>)
    requires |lines| > 0 && log == Join(lines, "\n")
    requires forall l :: l in lines ==> IsLineOf(l, changes, changes.Keys)
    ensures |log| > 0 && IsDigit(log[|log| - 1])
  {
    var last := lines[|lines| - 1];
    assert last in lines;
    var g :| g in changes && last == Line(g, changes[g]);
    JoinShape(lines, "\n");
    assert log[|log| - 1] == log[|log| - |last|..][|last| - 1];
  }

  /** The log is empty exactly when the counter map is, as when no event carried a path. */
  lemma EmptyLogIffNoFiles(log: string, changes: map<string, Counts>)
    requires IsChangeLog(log, changes)
    ensures log == "" <==> changes == map[]
  {
    var lines :| ListsEachFileOnce(lines, changes) && log == Join(lines, "\n");
    if changes != map[] {
      var f :| f in changes;
      assert Line(f, changes[f]) in lines;
      JoinedLinesEndWithDigit(log, lines, changes);
    }
  }

  /** A non-empty log ends with a counter digit, never with a newline. */
  lemma LogHasNoTrailingNewline(log: string, changes: map<string, Counts>)
    requires IsChangeLog(log, changes) && log != ""
    ensures IsDigit(log[|log| - 1])
  {
    var lines :| ListsEachFileOnce(lines, changes) && log == Join(lines, "\n");
    JoinedLinesEndWithDigit(log, lines, changes);
  }

  lemma NoNewlineInLine(file: string, c: Counts)
    requires '\n' !in file
    ensures '\n' !in Line(file, c)
  {
    var l := Line(file, c);
    assert l == l[..|file|] + l[|file|..];
  }

  /**
   * When no file name holds a newline and some file was touched, splitting
   * the log at newlines gives back one line per file, each exactly as
   * rendered.
   */
  lemma LogSplitsIntoFileLines(log: string, changes: map<string, Counts>)
    requires IsChangeLog(log, changes)
    requires changes != map[]
    requires forall f :: f in changes ==> '\n' !in f
    ensures var parts := SplitOn(log, '\n');
      && |parts| == |changes|
      && (forall f :: f in changes ==> Line(f, changes[f]) in parts)
      && (forall p :: p in parts ==> IsLineOf(p, changes, changes.Keys))
  {
    var lines :| ListsEachFileOnce(lines, changes) && log == Join(lines, "\n");
    var f0 :| f0 in changes;
    assert Line(f0, changes[f0]) in lines;
    FileLinesHaveNoNewline(lines, changes);
    SplitJoin(lines, '\n');
  }

  lemma FileLinesHaveNoNewline(lines: seq<string>, changes: map<string, Counts>)
    requires forall l :: l in lines ==> IsLineOf(l, changes, changes.Keys)
    requires forall f :: f in changes ==> '\n' !in f
    ensures forall k :: 0 <= k < |lines| ==> '\n' !in lines[k]
  {
    forall k | 0 <= k < |lines| ensures '\n' !in lines[k] {
      assert lines[k] in lines;
      var g :| g in changes && lines[k] == Line(g, changes[g]);
      NoNewlineInLine(g, changes[g]);
    }
  }

  /** The scenario of two files: two additions and a context line in one, a removal in the other. */
  lemma TwoFileScenario()
    ensures Summary([
        LineEvent(Some("a.txt"), '+'), LineEvent(Some("a.txt"), '+'),
        LineEvent(Some("a.txt"), ' '), LineEvent(Some("b.txt"), '-')])
      == map["a.txt" := Counts(2, 0, 1), "b.txt" := Counts(0, 1, 0)]
  {
    var a, c, d := LineEvent(Some("a.txt"), '+'), LineEvent(Some("a.txt"), ' '), LineEvent(Some("b.txt"), '-');
    ScenarioFirstFile();
    SummaryStep([a, a, c], d);
    assert [a, a, c] + [d] == [a, a, c, d];
    assert "a.txt" != "b.txt";
  }

  lemma ScenarioFirstFile()
    ensures Summary([LineEvent(Some("a.txt"), '+'), LineEvent(Some("a.txt"), '+'), LineEvent(Some("a.txt"), ' ')])
      == map["a.txt" := Counts(2, 0, 1)]
  {
    var a, c := LineEvent(Some("a.txt"), '+'), LineEvent(Some("a.txt"), ' ');
    ScenarioAdditions();
    SummaryStep([a, a], c);
    assert [a, a] + [c] == [a, a, c];
  }

  lemma ScenarioAdditions()
    ensures Summary([LineEvent(Some("a.txt"), '+'), LineEvent(Some("a.txt"), '+')]) == map["a.txt" := Counts(2, 0, 0)]
  {
    var a := LineEvent(Some("a.txt"), '+');
    var e0: seq<LineEvent> := [];
    assert Summary(e0) == map[];
    SummaryStep(e0, a);
    assert e0 + [a] == [a];
    assert Summary([a]) == map["a.txt" := Counts(1, 0, 0)];
    SummaryStep([a], a);
    assert [a] + [a] == [a, a];
  }

  /** The lines of that scenario, character for character. */
  lemma TwoFileScenarioLines()
    ensures Line("a.txt", Counts(2, 0, 1)) == "a.txt +2 -0 ~1"
    ensures Line("b.txt", Counts(0, 1, 0)) == "b.txt +0 -1 ~0"
  {
    assert Decimal(0) == "0" && Decimal(1) == "1" && Decimal(2) == "2";
  }

  /** The log of that scenario: the two lines, joined by a newline, in either order. */
  lemma TwoFileScenarioLog(log: string)
    requires IsChangeLog(log, Summary([
        LineEvent(Some("a.txt"), '+'), LineEvent(Some("a.txt"), '+'),
        LineEvent(Some("a.txt"), ' '), LineEvent(Some("b.txt"), '-')]))
    ensures log == "a.txt +2 -0 ~1\nb.txt +0 -1 ~0" || log == "b.txt +0 -1 ~0\na.txt +2 -0 ~1"
  {
    TwoFileScenario();
    TwoFileScenarioLines();
    assert "a.txt" != "b.txt";
    TwoFileLog(log, "a.txt", Counts(2, 0, 1), "b.txt", Counts(0, 1, 0));
    ScenarioLogSpelling();
  }

  lemma ScenarioLogSpelling()
    ensures "a.txt +2 -0 ~1" + "\n" + "b.txt +0 -1 ~0" == "a.txt +2 -0 ~1\nb.txt +0 -1 ~0"
    ensures "b.txt +0 -1 ~0" + "\n" + "a.txt +2 -0 ~1" == "b.txt +0 -1 ~0\na.txt +2 -0 ~1"
  {
  }

  /** The log of a map with two files is their two lines, joined by a newline, in either order. */
  lemma TwoFileLog(log: string, f: string, cf: Counts, g: string, cg: Counts)
    requires f != g
    requires IsChangeLog(log, map[f := cf, g := cg])
    ensures var lf, lg := Line(f, cf), Line(g, cg);
      log == lf + "\n" + lg || log == lg + "\n" + lf
  {
    var changes := map[f := cf, g := cg];
    var lines :| ListsEachFileOnce(lines, changes) && log == Join(lines, "\n");
    assert |lines| == 2;
    assert lines[0] in lines && lines[1] in lines;
    LineOfTwoFiles(lines[0], f, cf, g, cg);
    LineOfTwoFiles(lines[1], f, cf, g, cg);
    assert lines[0] != lines[1];
    JoinTwo(lines, "\n");
  }

  lemma LineOfTwoFiles(l: string, f: string, cf: Counts, g: string, cg: Counts)
    requires IsLineOf(l, map[f := cf, g := cg], {f, g})
    ensures l == Line(f, cf) || l == Line(g, cg)
  {
  }

  // ---------------------------------------------------------------------------
  // Message, parents, identity
  // ---------------------------------------------------------------------------

  /** `get_commit_message`: the timestamp, a blank line, then the log. */
  function CommitMessage(time: string, log: string): (msg: string)
    ensures |msg| == |time| + 2 + |log|
    ensures msg[..|time|] == time && msg[|time|] == '\n' && msg[|time| + 1] == '\n'
    ensures msg[|time| + 2..] == log
  {
    time + "\n\n" + log
  }

  /**
   * When the timestamp holds no newline, the message reads as the timestamp
   * line, one blank line, then the lines of the log.
   */
  lemma MessageLines(time: string, log: string)
    requires '\n' !in time
    ensures SplitOn(CommitMessage(time, log), '\n') == [time, ""] + SplitOn(log, '\n')
  {
    var msg := CommitMessage(time, log);
    forall j | 0 <= j < |time| ensures msg[j] != '\n' {
      assert msg[j] == time[j] && time[j] in time;
    }
    assert IndexOf(msg, '\n') == |time|;
    var rest := msg[|time| + 1..];
    assert rest == "\n" + log;
    assert IndexOf(rest, '\n') == 0;
    assert rest[1..] == log;
  }

  /** With no file touched, the message is just the timestamp and a blank line. */
  lemma EmptyDiffMessage(time: string, log: string, events: seq<LineEvent>)
    requires IsChangeLog(log, Summary(events)) && Files(events) == {}
    ensures CommitMessage(time, log) == time + "\n\n"
  {
    assert Summary(events) == map[];
    EmptyLogIffNoFiles(log, Summary(events));
  }

  datatype CommitId = CommitId(oid: string)

  /** An author or committer identity. */
  datatype Signature = Signature(name: string, email: string)

  const FallbackName := "Unknown"
  const FallbackEmail := "unknown@example.com"

  /** What is handed to the repository's commit call. */
  datatype CommitRequest = CommitRequest(
    updateRef: string, author: Signature, committer: Signature,
    message: string, parents: seq<CommitId>)

  /** The parents of the new commit: the HEAD commit when HEAD resolves, none otherwise. */
  function Parents(head: Option<CommitId>): (ps: seq<CommitId>)
    ensures |ps| <= 1
    ensures ps == [] <==> head.None?
    ensures forall p :: p in ps <==> head == Some(p)
  {
    if head.Some? then [head.value] else []
  }

  /**
   * The signature used for both author and committer: each of `user.name`
   * and `user.email` falls back to its sentinel on its own.
   */
  function Identity(configName: Option<string>, configEmail: Option<string>): (sig: Signature)
    ensures configName.Some? ==> sig.name == configName.value
    ensures configName.None? ==> sig.name == "Unknown"
    ensures configEmail.Some? ==> sig.email == configEmail.value
    ensures configEmail.None? ==> sig.email == "unknown@example.com"
  {
    Signature(configName.GetOr(FallbackName), configEmail.GetOr(FallbackEmail))
  }

  /** The name chosen depends on the configured name only, the e-mail on the configured e-mail only. */
  lemma IdentityFieldsIndependent(n1: Option<string>, e1: Option<string>, n2: Option<string>, e2: Option<string>)
    ensures n1 == n2 ==> Identity(n1, e1).name == Identity(n2, e2).name
    ensures e1 == e2 ==> Identity(n1, e1).email == Identity(n2, e2).email
  {
  }

  /** `commit_changes`: the commit written on HEAD, signed twice by the same identity. */
  function CommitChanges(message: string, head: Option<CommitId>,
                         configName: Option<string>, configEmail: Option<string>): (r: CommitRequest)
    ensures r.updateRef == "HEAD" && r.message == message
    ensures r.author == r.committer == Identity(configName, configEmail)
    ensures head.None? ==> r.parents == []
    ensures head.Some? ==> r.parents == [head.value]
  {
    var sig := Identity(configName, configEmail);
    CommitRequest("HEAD", sig, sig, message, Parents(head))
  }

  /** `commit`: timestamp, change log, message, then the commit request. */
  method CommitAll(time: string, events: seq<LineEvent>, head: Option<CommitId>,
                   configName: Option<string>, configEmail: Option<string>) returns (r: CommitRequest)
    ensures exists log :: IsChangeLog(log, Summary(events)) && r.message == CommitMessage(time, log)
    ensures r == CommitChanges(r.message, head, configName, configEmail)
  {
    var log := GetChangeLogs(events);
    var message := CommitMessage(time, log);
    r := CommitChanges(message, head, configName, configEmail);
  }
}
