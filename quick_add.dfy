/**
 * The quick-add parser `TaskInputParser.parse` (Presentation/Views/Components/QuickAddTask.swift)
 * and the guard of `QuickAddTaskView.addTask`.
 *
 * Parsing runs in four stages over a draft `ParsedTaskInput` whose title shrinks as keywords
 * are taken out of it: the notes marker, the first priority pattern that occurs, the first
 * pomodoro pattern that matches, and the final blank clean-up. Each stage is a function here;
 * `Parse` is the step-by-step version with the source's loops and is proved equal to `Parsed`.
 */
module QuickAdd {
  import opened Wrappers
  import opened Units
  import opened Strings
  import opened Tasks

  datatype ParsedTaskInput = ParsedTaskInput(title: string, pomodoros: int, priority: TaskPriority, notes: string)

  /** The draft before any keyword is taken: 1 pomodoro, Medium priority, no notes. */
  function Start(input: string): ParsedTaskInput {
    ParsedTaskInput(Trim(input), 1, Medium, "")
  }

  /** `replacingCharacters(in: lo..<hi, with: "")` */
  function Cut(s: string, lo: nat, hi: nat): (r: string)
    requires lo <= hi <= |s|
    ensures |r| == |s| - (hi - lo)
  {
    s[..lo] + s[hi..]
  }

  // ---- stage 1: notes

  const NoteMarker: string := "note:"
  const NotesMarker: string := "notes:"

  /** Everything after the marker at `k` becomes the notes; the text before it stays the title. */
  function SplitAt(d: ParsedTaskInput, k: nat, marker: string): ParsedTaskInput
    requires k + |marker| <= |d.title|
  {
    d.(title := Trim(d.title[..k]), notes := Trim(d.title[k + |marker|..]))
  }

  /**
   * The notes stage: the leftmost "note:", or failing that the leftmost "notes:", splits the
   * text into title and notes; priority and count are not touched.
   */
  function WithNotes(d: ParsedTaskInput): (r: ParsedTaskInput)
    ensures r.priority == d.priority && r.pomodoros == d.pomodoros
    ensures FindCaseInsensitive(d.title, NoteMarker).None? && FindCaseInsensitive(d.title, NotesMarker).None? ==> r == d
  {
    match FindCaseInsensitive(d.title, NoteMarker)
    case Some(k) => SplitAt(d, k, NoteMarker)
    case None =>
      match FindCaseInsensitive(d.title, NotesMarker)
      case Some(k) => SplitAt(d, k, NotesMarker)
      case None => d
  }

  // ---- stage 2: priority

  /** The priority patterns in the order they are tried. */
  const PriorityPatterns: seq<(string, TaskPriority)> := [
    ("high priority", High), ("high", High), ("!!", High), ("urgent", High),
    ("medium priority", Medium), ("medium", Medium), ("!", Medium),
    ("low priority", Low), ("low", Low)]

  /** The draft after `pattern`, found at `k`: its priority is set and that occurrence cut out. */
  function Removing(d: ParsedTaskInput, pattern: (string, TaskPriority), k: nat): ParsedTaskInput
    requires k + |pattern.0| <= |d.title|
  {
    d.(priority := pattern.1, title := Trim(Cut(d.title, k, k + |pattern.0|)))
  }

  /** The first pattern that occurs sets the priority and its leftmost occurrence is cut out. */
  function WithPriority(d: ParsedTaskInput, patterns: seq<(string, TaskPriority)>): (r: ParsedTaskInput)
    ensures r.pomodoros == d.pomodoros && r.notes == d.notes
  {
    if patterns == [] then d
    else
      match FindCaseInsensitive(d.title, patterns[0].0)
      case Some(k) => Removing(d, patterns[0], k)
      case None => WithPriority(d, patterns[1..])
  }

  // ---- stage 3: pomodoros

  /**
   * The regular expressions `(\d+)\s*pomodoros?`, `(\d+)\s*poms?`, `(\d+)\s*🍅` and
   * `est:?\s*(\d+)`, all matched case-insensitively.
   */
  datatype PomodoroPattern =
    | CountThen(word: string, plural: bool)   // (\d+)\s*word, then an optional s when plural
    | KeyThenCount(key: string)               // key:?\s*(\d+)

  const PomodoroPatterns: seq<PomodoroPattern> := [
    CountThen("pomodoro", true), CountThen("pom", true), CountThen("\U{1F345}", false),
    KeyThenCount("est")]

  /** A match: the matched range and the value of capture group 1 (`Int(title[numberRange])`). */
  datatype Match = Match(start: nat, end: nat, number: nat)

  /** The regex class `\s`: tab, line feed, form feed, carriage return and category Z. */
  predicate IsRegexSpace(c: char) {
    IsBlank(c) || c == '\n' || c == '\U{000C}' || c == '\r' || c == '\U{2028}' || c == '\U{2029}'
  }

  /** The end of the run of digits starting at `i`. */
  function DigitsEnd(t: string, i: nat): (j: nat)
    requires i <= |t|
    ensures i <= j <= |t|
    ensures j == |t| || !IsDigit(t[j])
    decreases |t| - i
  {
    if i < |t| && IsDigit(t[i]) then DigitsEnd(t, i + 1) else i
  }

  /** Everything from `i` up to `DigitsEnd(t, i)` is a digit. */
  lemma {:induction false} DigitsRun(t: string, i: nat)
    requires i <= |t|
    ensures AllDigits(t[i..DigitsEnd(t, i)])
    decreases |t| - i
  {
    if i < |t| && IsDigit(t[i]) {
      DigitsRun(t, i + 1);
      var j := DigitsEnd(t, i + 1);
      assert t[i..j] == [t[i]] + t[i + 1..j];
    }
  }

  /** The end of the run of `\s` characters starting at `i`. */
  function SpacesEnd(t: string, i: nat): (j: nat)
    requires i <= |t|
    ensures i <= j <= |t|
    ensures j == |t| || !IsRegexSpace(t[j])
    decreases |t| - i
  {
    if i < |t| && IsRegexSpace(t[i]) then SpacesEnd(t, i + 1) else i
  }

  /** Everything from `i` up to `SpacesEnd(t, i)` is a `\s` character. */
  lemma {:induction false} SpacesRun(t: string, i: nat)
    requires i <= |t|
    ensures forall k :: i <= k < SpacesEnd(t, i) ==> IsRegexSpace(t[k])
    decreases |t| - i
  {
    if i < |t| && IsRegexSpace(t[i]) {
      SpacesRun(t, i + 1);
    }
  }

  /**
   * The match of `p` starting exactly at `i`, if any. Repetitions are greedy; backtracking
   * never finds another match, because a shorter digit or blank run leaves a digit or blank
   * where the next part of the pattern needs something else.
   */
  function MatchAt(t: string, p: PomodoroPattern, i: nat): (m: Option<Match>)
    requires i <= |t|
    ensures m.Some? ==> m.value.start == i < m.value.end <= |t|
  {
    match p
    case CountThen(word, plural) =>
      var d := DigitsEnd(t, i);
      var w := SpacesEnd(t, d);
      if d == i || !MatchesAt(t, word, w) then None
      else
        var e := w + |word|;
        var end := if plural && e < |t| && Lower(t[e]) == 's' then e + 1 else e;
        DigitsRun(t, i);
        Some(Match(i, end, DigitsValue(t[i..d])))
    case KeyThenCount(key) =>
      if !MatchesAt(t, key, i) then None
      else
        var k := i + |key|;
        var c := if k < |t| && t[k] == ':' then k + 1 else k;
        var w := SpacesEnd(t, c);
        var d := DigitsEnd(t, w);
        DigitsRun(t, w);
        if d == w then None else Some(Match(i, d, DigitsValue(t[w..d])))
  }

  /** The first position from `i` on whose candidate match exists. */
  function FirstSome(ms: seq<Option<Match>>, i: nat): (k: Option<nat>)
    requires i <= |ms|
    ensures k.Some? ==> i <= k.value < |ms| && ms[k.value].Some?
    ensures k.Some? ==> forall j :: i <= j < k.value ==> ms[j].None?
    ensures k.None? ==> forall j :: i <= j < |ms| ==> ms[j].None?
    decreases |ms| - i
  {
    if i == |ms| then None
    else if ms[i].Some? then Some(i)
    else FirstSome(ms, i + 1)
  }

  /** `p` matches nowhere in `t`. */
  predicate NoMatch(t: string, p: PomodoroPattern) {
    forall s :: 0 <= s <= |t| ==> MatchAt(t, p, s).None?
  }

  /** The match of `p` starting at each position of `t`, the end of `t` included. */
  function Candidates(t: string, p: PomodoroPattern): (ms: seq<Option<Match>>)
    ensures |ms| == |t| + 1 && forall i :: 0 <= i <= |t| ==> ms[i] == MatchAt(t, p, i)
  {
    seq(|t| + 1, i requires 0 <= i <= |t| => MatchAt(t, p, i))
  }

  /** `firstMatch(in:range:)`: the leftmost match. */
  function FirstMatch(t: string, p: PomodoroPattern): (m: Option<Match>)
    ensures m.Some? ==> m.value.start <= |t| && MatchAt(t, p, m.value.start) == m
    ensures m.Some? ==> forall j :: 0 <= j < m.value.start ==> MatchAt(t, p, j).None?
    ensures m.None? <==> NoMatch(t, p)
  {
    var ms := Candidates(t, p);
    match FirstSome(ms, 0)
    case None => None
    case Some(k) =>
      assert ms[k] == MatchAt(t, p, k);
      ms[k]
  }

  /** The draft after the pattern's match `m`: the number counts only if it is 1 to 20. */
  function Taking(d: ParsedTaskInput, m: Match): ParsedTaskInput
    requires m.start <= m.end <= |d.title|
  {
    d.(pomodoros := if 0 < m.number <= 20 then m.number else d.pomodoros,
       title := Trim(Cut(d.title, m.start, m.end)))
  }

  /** `firstMatch` of each pattern in turn. */
  function FirstMatches(t: string, patterns: seq<PomodoroPattern>): (found: seq<Option<Match>>)
    ensures |found| == |patterns| && forall i :: 0 <= i < |patterns| ==> found[i] == FirstMatch(t, patterns[i])
    ensures Within(t, found)
  {
    seq(|patterns|, i requires 0 <= i < |patterns| => FirstMatch(t, patterns[i]))
  }

  /** Every match found lies inside `t`. */
  predicate Within(t: string, found: seq<Option<Match>>) {
    forall i :: 0 <= i < |found| && found[i].Some? ==> found[i].value.start <= found[i].value.end <= |t|
  }

  /** The first match found is used and the later ones are ignored; with none the draft stays. */
  function UseFirst(d: ParsedTaskInput, found: seq<Option<Match>>): (r: ParsedTaskInput)
    requires Within(d.title, found)
    ensures r.priority == d.priority && r.notes == d.notes
    ensures 1 <= d.pomodoros <= 20 ==> 1 <= r.pomodoros <= 20
  {
    if found == [] then d
    else
      match found[0]
      case Some(m) => Taking(d, m)
      case None => UseFirst(d, found[1..])
  }

  /** The first pattern that matches anywhere is used; the rest are not tried. */
  function WithPomodoros(d: ParsedTaskInput, patterns: seq<PomodoroPattern>): (r: ParsedTaskInput)
    ensures r.priority == d.priority && r.notes == d.notes
    ensures 1 <= d.pomodoros <= 20 ==> 1 <= r.pomodoros <= 20
  {
    UseFirst(d, FirstMatches(d.title, patterns))
  }

  // ---- the whole parse

  /** Stages 2 to 4, applied to the title left once the notes are split off. */
  function Refined(d: ParsedTaskInput): (r: ParsedTaskInput)
    requires d.pomodoros == 1 && d.priority == Medium
    ensures 1 <= r.pomodoros <= 20 && SingleSpaced(r.title)
    ensures r.notes == d.notes
  {
    var e := WithPomodoros(WithPriority(d, PriorityPatterns), PomodoroPatterns);
    e.(title := CollapseBlanks(e.title))
  }

  /** `TaskInputParser.parse(input)` */
  function Parsed(input: string): (r: ParsedTaskInput)
    ensures 1 <= r.pomodoros <= 20
    ensures SingleSpaced(r.title)
  {
    Refined(WithNotes(Start(input)))
  }

  /** `TaskInputParser.parse`, step by step as the source does it. */
  method Parse(input: string) returns (r: ParsedTaskInput)
    ensures r == Parsed(input)
  {
    var draft := ParsedTaskInput(Trim(input), 1, Medium, "");
    draft := TakeNotes(draft);
    draft := TakePriority(draft, PriorityPatterns);
    draft := TakePomodoros(draft, PomodoroPatterns);
    // Collapse the blanks.
    r := draft.(title := CollapseBlanks(draft.title));
  }

  /** Extracts the notes: "note:" first, then "notes:". */
  method TakeNotes(d: ParsedTaskInput) returns (r: ParsedTaskInput)
    ensures r == WithNotes(d)
  {
    var title, notes := d.title, d.notes;
    var noteRange := FindCaseInsensitive(title, NoteMarker);
    if noteRange.Some? {
      notes := Trim(title[noteRange.value + |NoteMarker|..]);
      title := Trim(title[..noteRange.value]);
    } else {
      var notesRange := FindCaseInsensitive(title, NotesMarker);
      if notesRange.Some? {
        notes := Trim(title[notesRange.value + |NotesMarker|..]);
        title := Trim(title[..notesRange.value]);
      }
    }
    r := d.(title := title, notes := notes);
  }

  /** Tries the priority patterns in order; the first that occurs wins. */
  method TakePriority(d: ParsedTaskInput, patterns: seq<(string, TaskPriority)>) returns (r: ParsedTaskInput)
    ensures r == WithPriority(d, patterns)
  {
    var title, priority := d.title, d.priority;
    for i := 0 to |patterns|
      invariant title == d.title && priority == d.priority
      invariant WithPriority(d, patterns[i..]) == WithPriority(d, patterns)
    {
      var pattern := patterns[i];
      var range := FindCaseInsensitive(title, pattern.0);
      PriorityStep(d, patterns, i);
      if range.Some? {
        // The priority is the pattern's; its occurrence is cut out and the title trimmed.
        var taken := Removing(d, pattern, range.value);
        title, priority := taken.title, taken.priority;
        break;
      }
    }
    r := d.(title := title, priority := priority);
    assert patterns[|patterns|..] == [];
  }

  /** One step of the priority loop: the pattern at `i` either occurs and decides, or is passed over. */
  lemma PriorityStep(d: ParsedTaskInput, patterns: seq<(string, TaskPriority)>, i: nat)
    requires i < |patterns|
    ensures var found := FindCaseInsensitive(d.title, patterns[i].0);
      && (found.Some? ==> WithPriority(d, patterns[i..]) == Removing(d, patterns[i], found.value))
      && (found.None? ==> WithPriority(d, patterns[i..]) == WithPriority(d, patterns[i + 1..]))
  {
    assert patterns[i..][0] == patterns[i];
    assert patterns[i..][1..] == patterns[i + 1..];
  }

  /** Tries the pomodoro patterns in order; the first that matches wins and its text goes. */
  method TakePomodoros(d: ParsedTaskInput, patterns: seq<PomodoroPattern>) returns (r: ParsedTaskInput)
    ensures r == WithPomodoros(d, patterns)
  {
    var title, pomodoros := d.title, d.pomodoros;
    ghost var found := FirstMatches(d.title, patterns);
    for i := 0 to |patterns|
      invariant title == d.title && pomodoros == d.pomodoros
      invariant UseFirst(d, found[i..]) == WithPomodoros(d, patterns)
    {
      var match_ := FirstMatch(title, patterns[i]);
      assert found[i..][0] == found[i] == match_;
      if match_.Some? {
        var m := match_.value;
        if m.number > 0 && m.number <= 20 {
          pomodoros := m.number;
        }
        title := Trim(Cut(title, m.start, m.end));
        break;
      }
      assert found[i..][1..] == found[i + 1..];
    }
    r := d.(title := title, pomodoros := pomodoros);
  }

  // ---- what the parse promises

  /** Blank input parses to the defaults with an empty title. */
  lemma BlankInput(input: string)
    requires AllWhitespace(input)
    ensures Parsed(input) == ParsedTaskInput("", 1, Medium, "")
  {
    var d := Start(input);
    assert d.title == [];
    EmptyTitleNoNotes(d);
    EmptyTitleStays(d);
    CollapseEmpty();
  }

  /** An empty title holds no notes marker. */
  lemma EmptyTitleNoNotes(d: ParsedTaskInput)
    requires d.title == []
    ensures WithNotes(d) == d
  {
    assert !MatchesAt(d.title, NoteMarker, 0);
  }

  /** Neither a priority word nor a pomodoro count can be found in an empty title. */
  lemma EmptyTitleStays(d: ParsedTaskInput)
    requires d.title == []
    ensures WithPomodoros(WithPriority(d, PriorityPatterns), PomodoroPatterns) == d
  {
    NoPriorityPattern(d, PriorityPatterns);
    NoPomodoroPattern(d, PomodoroPatterns);
  }

  /** The leftmost occurrence of "note:" splits the input: the rest is the notes, untouched. */
  lemma NotesAfterNote(input: string, k: nat)
    requires MatchesAt(Trim(input), NoteMarker, k)
    requires forall j :: 0 <= j < k ==> !MatchesAt(Trim(input), NoteMarker, j)
    ensures Parsed(input).notes == Trim(Trim(input)[k + 5..])
    ensures Parsed(input) == Refined(ParsedTaskInput(Trim(Trim(input)[..k]), 1, Medium, Trim(Trim(input)[k + 5..])))
  {
    var t := Trim(input);
    LeftmostFound(t, NoteMarker, k);
    assert WithNotes(Start(input)) == ParsedTaskInput(Trim(t[..k]), 1, Medium, Trim(t[k + 5..]));
  }

  /** Without "note:", the leftmost "notes:" splits the input the same way. */
  lemma NotesAfterNotes(input: string, k: nat)
    requires !Contains(Trim(input), NoteMarker)
    requires MatchesAt(Trim(input), NotesMarker, k)
    requires forall j :: 0 <= j < k ==> !MatchesAt(Trim(input), NotesMarker, j)
    ensures Parsed(input).notes == Trim(Trim(input)[k + 6..])
    ensures Parsed(input) == Refined(ParsedTaskInput(Trim(Trim(input)[..k]), 1, Medium, Trim(Trim(input)[k + 6..])))
  {
    var t := Trim(input);
    LeftmostFound(t, NotesMarker, k);
    assert FindCaseInsensitive(t, NoteMarker).None?;
    assert WithNotes(Start(input)) == ParsedTaskInput(Trim(t[..k]), 1, Medium, Trim(t[k + 6..]));
  }

  /** With neither marker the notes are empty and the whole trimmed input is scanned. */
  lemma NoNotes(input: string)
    requires !Contains(Trim(input), NoteMarker) && !Contains(Trim(input), NotesMarker)
    ensures Parsed(input).notes == ""
    ensures Parsed(input) == Refined(Start(input))
  {
    var t := Trim(input);
    assert FindCaseInsensitive(t, NoteMarker).None? && FindCaseInsensitive(t, NotesMarker).None?;
    assert WithNotes(Start(input)) == Start(input);
  }

  /** The notes never influence the title, the pomodoros or the priority. */
  lemma NotesIgnored(title: string, notes1: string, notes2: string)
    ensures var r1 := Refined(ParsedTaskInput(title, 1, Medium, notes1));
            var r2 := Refined(ParsedTaskInput(title, 1, Medium, notes2));
            r1.title == r2.title && r1.pomodoros == r2.pomodoros && r1.priority == r2.priority
  {
    PriorityIgnoresNotes(ParsedTaskInput(title, 1, Medium, notes1), notes2, PriorityPatterns);
    PomodorosIgnoreNotes(WithPriority(ParsedTaskInput(title, 1, Medium, notes1), PriorityPatterns), notes2, PomodoroPatterns);
  }

  lemma {:induction false} PriorityIgnoresNotes(d: ParsedTaskInput, notes: string, patterns: seq<(string, TaskPriority)>)
    ensures WithPriority(d.(notes := notes), patterns) == WithPriority(d, patterns).(notes := notes)
  {
    if patterns != [] && FindCaseInsensitive(d.title, patterns[0].0).None? {
      PriorityIgnoresNotes(d, notes, patterns[1..]);
    }
  }

  lemma PomodorosIgnoreNotes(d: ParsedTaskInput, notes: string, patterns: seq<PomodoroPattern>)
    ensures WithPomodoros(d.(notes := notes), patterns) == WithPomodoros(d, patterns).(notes := notes)
  {
    UseFirstIgnoresNotes(d, notes, FirstMatches(d.title, patterns));
  }

  lemma {:induction false} UseFirstIgnoresNotes(d: ParsedTaskInput, notes: string, found: seq<Option<Match>>)
    requires Within(d.title, found)
    ensures UseFirst(d.(notes := notes), found) == UseFirst(d, found).(notes := notes)
  {
    if found != [] && found[0].None? {
      UseFirstIgnoresNotes(d, notes, found[1..]);
    }
  }

  /**
   * The first pattern `patterns[j]` that occurs anywhere decides the priority, and only its
   * leftmost occurrence, at `k`, is cut out of the title.
   */
  lemma {:induction false} FirstPriorityPattern(d: ParsedTaskInput, patterns: seq<(string, TaskPriority)>, j: nat, k: nat)
    requires j < |patterns|
    requires forall i :: 0 <= i < j ==> !Contains(d.title, patterns[i].0)
    requires MatchesAt(d.title, patterns[j].0, k)
    requires forall i :: 0 <= i < k ==> !MatchesAt(d.title, patterns[j].0, i)
    ensures WithPriority(d, patterns) == Removing(d, patterns[j], k)
  {
    if j == 0 {
      LeftmostFound(d.title, patterns[0].0, k);
    } else {
      assert !Contains(d.title, patterns[0].0);
      assert WithPriority(d, patterns) == WithPriority(d, patterns[1..]);
      forall i | 0 <= i < j - 1
        ensures !Contains(d.title, patterns[1..][i].0)
      {
        assert patterns[1..][i] == patterns[i + 1];
      }
      assert patterns[1..][j - 1] == patterns[j];
      FirstPriorityPattern(d, patterns[1..], j - 1, k);
    }
  }

  /** The leftmost occurrence is the one the search finds. */
  lemma LeftmostFound(s: string, pat: string, k: nat)
    requires MatchesAt(s, pat, k)
    requires forall i :: 0 <= i < k ==> !MatchesAt(s, pat, i)
    ensures FindCaseInsensitive(s, pat) == Some(k)
  {
  }

  /** When no pattern occurs the draft keeps its priority and its title. */
  lemma {:induction false} NoPriorityPattern(d: ParsedTaskInput, patterns: seq<(string, TaskPriority)>)
    requires forall i :: 0 <= i < |patterns| ==> !Contains(d.title, patterns[i].0)
    ensures WithPriority(d, patterns) == d
  {
    if patterns != [] {
      assert !Contains(d.title, patterns[0].0);
      NoPriorityPattern(d, patterns[1..]);
    }
  }

  /** A title mentioning "high", "!!" or "urgent" is High, whatever else it mentions. */
  lemma HighWordsWin(d: ParsedTaskInput)
    requires Contains(d.title, "high") || Contains(d.title, "!!") || Contains(d.title, "urgent")
    ensures WithPriority(d, PriorityPatterns).priority == High
  {
    var t, ps := d.title, PriorityPatterns;
    var j: nat := if Contains(t, ps[0].0) then 0 else if Contains(t, ps[1].0) then 1
      else if Contains(t, ps[2].0) then 2 else 3;
    var k := FindCaseInsensitive(t, ps[j].0).value;
    FirstPriorityPattern(d, ps, j, k);
  }

  /**
   * The first pattern `patterns[j]` that matches anywhere decides: its leftmost match `m` is
   * cut out of the title, and its number replaces the count only when it is 1 to 20.
   */
  lemma FirstPomodoroPattern(d: ParsedTaskInput, patterns: seq<PomodoroPattern>, j: nat, m: Match)
    requires j < |patterns|
    requires forall i :: 0 <= i < j ==> NoMatch(d.title, patterns[i])
    requires m.start <= |d.title| && MatchAt(d.title, patterns[j], m.start) == Some(m)
    requires forall s :: 0 <= s < m.start ==> MatchAt(d.title, patterns[j], s).None?
    ensures WithPomodoros(d, patterns) == Taking(d, m)
  {
    var found := FirstMatches(d.title, patterns);
    LeftmostMatch(d.title, patterns[j], m);
    forall i | 0 <= i < j ensures found[i].None? {
      assert NoMatch(d.title, patterns[i]);
    }
    FirstFound(d, found, j, m);
  }

  /** Search stops at the first pattern with a match, and uses that match. */
  lemma {:induction false} FirstFound(d: ParsedTaskInput, found: seq<Option<Match>>, j: nat, m: Match)
    requires Within(d.title, found) && j < |found|
    requires forall i :: 0 <= i < j ==> found[i].None?
    requires found[j] == Some(m)
    ensures m.start <= m.end <= |d.title| && UseFirst(d, found) == Taking(d, m)
  {
    if j > 0 {
      assert found[1..][j - 1] == found[j];
      FirstFound(d, found[1..], j - 1, m);
    }
  }

  /** The leftmost match is the one the search finds. */
  lemma LeftmostMatch(t: string, p: PomodoroPattern, m: Match)
    requires m.start <= |t| && MatchAt(t, p, m.start) == Some(m)
    requires forall s :: 0 <= s < m.start ==> MatchAt(t, p, s).None?
    ensures FirstMatch(t, p) == Some(m)
  {
    var ms := Candidates(t, p);
    FirstSomeAt(ms, 0, m.start);
    assert ms[m.start] == Some(m);
  }

  /** The search from `i` stops at the first candidate that exists. */
  lemma {:induction false} FirstSomeAt(ms: seq<Option<Match>>, i: nat, k: nat)
    requires i <= k < |ms| && ms[k].Some?
    requires forall j :: i <= j < k ==> ms[j].None?
    ensures FirstSome(ms, i) == Some(k)
    decreases k - i
  {
    if i < k {
      FirstSomeAt(ms, i + 1, k);
    }
  }

  /** When no pattern matches the draft keeps its count and its title. */
  lemma NoPomodoroPattern(d: ParsedTaskInput, patterns: seq<PomodoroPattern>)
    requires forall i :: 0 <= i < |patterns| ==> NoMatch(d.title, patterns[i])
    ensures WithPomodoros(d, patterns) == d
  {
    var found := FirstMatches(d.title, patterns);
    forall i | 0 <= i < |found| ensures found[i].None? {
      assert NoMatch(d.title, patterns[i]);
    }
    NoneFound(d, found);
  }

  lemma {:induction false} NoneFound(d: ParsedTaskInput, found: seq<Option<Match>>)
    requires Within(d.title, found)
    requires forall i :: 0 <= i < |found| ==> found[i].None?
    ensures UseFirst(d, found) == d
  {
    if found != [] {
      assert found[0].None?;
      assert forall i :: 0 <= i < |found| - 1 ==> found[1..][i] == found[i + 1];
      NoneFound(d, found[1..]);
    }
  }

  // ---- QuickAddTaskView.addTask

  /**
   * The task `addTask` hands to `addTaskDirectly`, given the current parse (nil before the
   * first edit), the new task's id and the clock: none unless the parsed title is non-empty.
   */
  function TaskToAdd(parsed: Option<ParsedTaskInput>, id: Uuid, now: Instant): (r: Option<PomodoroTask>)
    ensures r.Some? <==> parsed.Some? && parsed.value.title != []
    ensures r.Some? ==>
      && r.value.title == parsed.value.title && r.value.notes == parsed.value.notes
      && r.value.priority == parsed.value.priority
      && r.value.estimatedPomodoros == Max(1, parsed.value.pomodoros)
      && r.value.id == id && r.value.completedPomodoros == 0 && !r.value.isCompleted
  {
    match parsed
    case Some(p) =>
      if p.title == [] then None else Some(NewTask(id, p.title, p.notes, p.pomodoros, p.priority, now))
    case None => None
  }

  /** A task added from a parse carries exactly the parsed count. */
  lemma AddedEstimate(input: string, id: Uuid, now: Instant)
    requires Parsed(input).title != []
    ensures TaskToAdd(Some(Parsed(input)), id, now).Some?
    ensures TaskToAdd(Some(Parsed(input)), id, now).value.estimatedPomodoros == Parsed(input).pomodoros
  {
  }
}
