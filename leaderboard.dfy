/**
 * The leaderboard: entries ordered by winnings then level (both
 * descending) with an explicit top-down merge sort, capped at 100 entries,
 * and saved one `|`-separated line per entry.
 *
 * Three builds: the GUI board (src/leaderboard.cpp, entries without a
 * timestamp, four fields saved and exactly four loaded), the header board
 * (leaderboard.h, five fields saved, five or more loaded) and the root
 * board (leaderboard.cpp, four fields saved but five or more loaded).
 */
module Leaderboards {
  import opened Wrappers
  import opened Text
  import Players
  import opened LeaderboardSort

  const MAX_ENTRIES := 100
  const TOP_DISPLAY := 5

  datatype BoardKind = GuiBoard | HeaderBoard | RootBoard

  /** The default `count` of getTopEntries. */
  function DefaultTopCount(kind: BoardKind): int
  {
    if kind == HeaderBoard then 10 else TOP_DISPLAY
  }

  // ---------------------------------------------------------------------
  // The file format.

  /** One saved line. */
  function EntryLine(kind: BoardKind, e: Entry): string
  {
    if kind == HeaderBoard then
      Join([e.playerName, IntToString(e.winnings), IntToString(e.level), e.timestamp, IntToString(e.gamesPlayed)], '|')
    else
      Join([e.playerName, IntToString(e.winnings), IntToString(e.level), IntToString(e.gamesPlayed)], '|')
  }

  function EntryLines(kind: BoardKind, es: seq<Entry>): (r: seq<string>)
    ensures |r| == |es| && forall i :: 0 <= i < |es| ==> r[i] == EntryLine(kind, es[i])
  {
    if |es| == 0 then [] else [EntryLine(kind, es[0])] + EntryLines(kind, es[1..])
  }

  /** The file `saveToFile` writes. */
  function SaveText(kind: BoardKind, es: seq<Entry>): string
  {
    Unlines(EntryLines(kind, es))
  }

  /** The token counts a build accepts on load: exactly 4 (GUI) or at least 5. */
  predicate Accepted(kind: BoardKind, t: seq<string>)
  {
    if kind == GuiBoard then |t| == 4 else |t| >= 5
  }

  /** The numbers of an accepted line parse; `stoll` / `stoi` would throw otherwise. */
  predicate NumbersParse(kind: BoardKind, t: seq<string>)
  {
    Accepted(kind, t) ==>
      ParseInt(t[1]).Some? && ParseInt(t[2]).Some?
      && (if kind == GuiBoard then ParseInt(t[3]).Some? else ParseInt(t[4]).Some?)
  }

  predicate BoardLineOk(kind: BoardKind, line: string)
  {
    line != [] ==> NumbersParse(kind, Tokens(line, '|'))
  }

  predicate BoardLinesOk(kind: BoardKind, lines: seq<string>)
  {
    forall k :: 0 <= k < |lines| ==> BoardLineOk(kind, lines[k])
  }

  function ParseEntry(kind: BoardKind, t: seq<string>): Entry
    requires Accepted(kind, t) && NumbersParse(kind, t)
  {
    if kind == GuiBoard then
      Entry(t[0], ParseInt(t[1]).value, ParseInt(t[2]).value, "", ParseInt(t[3]).value)
    else
      Entry(t[0], ParseInt(t[1]).value, ParseInt(t[2]).value, t[3], ParseInt(t[4]).value)
  }

  /** The entry one line adds: one for a non-empty accepted line, none otherwise. */
  function LineEntries(kind: BoardKind, line: string): seq<Entry>
    requires BoardLineOk(kind, line)
  {
    var t := Tokens(line, '|');
    if line != [] && Accepted(kind, t) then [ParseEntry(kind, t)] else []
  }

  /** The entries `loadFromFile` appends for `lines`, in file order. */
  function LoadedEntries(kind: BoardKind, lines: seq<string>): seq<Entry>
    requires BoardLinesOk(kind, lines)
  {
    if |lines| == 0 then []
    else
      var n := |lines| - 1;
      assert BoardLineOk(kind, lines[n]);
      LoadedEntries(kind, lines[..n]) + LineEntries(kind, lines[n])
  }

  lemma LoadedStep(kind: BoardKind, lines: seq<string>, i: nat)
    requires i < |lines| && BoardLinesOk(kind, lines)
    ensures BoardLineOk(kind, lines[i]) && BoardLinesOk(kind, lines[..i + 1]) && BoardLinesOk(kind, lines[..i])
    ensures LoadedEntries(kind, lines[..i + 1]) == LoadedEntries(kind, lines[..i]) + LineEntries(kind, lines[i])
  {
    assert lines[..i + 1][..i] == lines[..i];
  }

  predicate Storable(e: Entry)
  {
    Free(e.playerName, '|') && Free(e.playerName, '\n') && Free(e.timestamp, '|') && Free(e.timestamp, '\n')
  }

  lemma EntryLineTokens(kind: BoardKind, e: Entry)
    requires Storable(e)
    ensures Free(EntryLine(kind, e), '\n') && EntryLine(kind, e) != []
    ensures kind == HeaderBoard ==> (Tokens(EntryLine(kind, e), '|')
      == [e.playerName, IntToString(e.winnings), IntToString(e.level), e.timestamp, IntToString(e.gamesPlayed)])
    ensures kind != HeaderBoard ==> (Tokens(EntryLine(kind, e), '|')
      == [e.playerName, IntToString(e.winnings), IntToString(e.level), IntToString(e.gamesPlayed)])
  {
    IntToStringFree(e.winnings, '|');
    IntToStringFree(e.level, '|');
    IntToStringFree(e.gamesPlayed, '|');
    IntToStringFree(e.winnings, '\n');
    IntToStringFree(e.level, '\n');
    IntToStringFree(e.gamesPlayed, '\n');
    var w, l, g := IntToString(e.winnings), IntToString(e.level), IntToString(e.gamesPlayed);
    if kind == HeaderBoard {
      var f := [e.playerName, w, l, e.timestamp, g];
      TokensOfJoin(f, '|');
      JoinFree(f, '|', '\n');
    } else {
      var f := [e.playerName, w, l, g];
      TokensOfJoin(f, '|');
      JoinFree(f, '|', '\n');
    }
  }

  /** Loading what the GUI or header board saved gives back the saved entries (timestamps "" on the GUI board). */
  lemma {:induction false} SaveLoadRoundTrip(kind: BoardKind, es: seq<Entry>)
    requires kind != RootBoard
    requires forall i :: 0 <= i < |es| ==> Storable(es[i]) && (kind == GuiBoard ==> es[i].timestamp == "")
    ensures BoardLinesOk(kind, Tokens(SaveText(kind, es), '\n'))
    ensures LoadedEntries(kind, Tokens(SaveText(kind, es), '\n')) == es
  {
    var lines := EntryLines(kind, es);
    forall i | 0 <= i < |es| ensures Free(lines[i], '\n') { EntryLineTokens(kind, es[i]); }
    TokensOfUnlines(lines);
    LoadedLinesOf(kind, es);
  }

  lemma LoadedLinesOf(kind: BoardKind, es: seq<Entry>)
    requires kind != RootBoard
    requires forall i :: 0 <= i < |es| ==> Storable(es[i]) && (kind == GuiBoard ==> es[i].timestamp == "")
    ensures BoardLinesOk(kind, EntryLines(kind, es))
    ensures LoadedEntries(kind, EntryLines(kind, es)) == es
  {
    var lines := EntryLines(kind, es);
    forall i | 0 <= i < |es| ensures LineLoadsAs(kind, lines[i], es[i]) { EntryLineLoads(kind, es[i]); }
    LoadAll(kind, lines, es);
  }

  /** `line` is kept by the loader and parses to `e`. */
  predicate LineLoadsAs(kind: BoardKind, line: string, e: Entry)
  {
    var t := Tokens(line, '|');
    line != [] && Accepted(kind, t) && NumbersParse(kind, t) && ParseEntry(kind, t) == e
  }

  /** `line` is skipped by the loader without throwing. */
  predicate LineSkipped(kind: BoardKind, line: string)
  {
    BoardLineOk(kind, line) && !(line != [] && Accepted(kind, Tokens(line, '|')))
  }

  /** Lines each of which loads as the matching entry load as exactly those entries. */
  lemma {:induction false} LoadAll(kind: BoardKind, lines: seq<string>, es: seq<Entry>)
    requires |lines| == |es| && forall i :: 0 <= i < |lines| ==> LineLoadsAs(kind, lines[i], es[i])
    ensures BoardLinesOk(kind, lines) && LoadedEntries(kind, lines) == es
    decreases |lines|
  {
    if |lines| > 0 {
      var n := |lines| - 1;
      assert forall i :: 0 <= i < n ==> lines[..n][i] == lines[i] && es[..n][i] == es[i];
      LoadAll(kind, lines[..n], es[..n]);
      assert BoardLinesOk(kind, lines) by {
        forall k | 0 <= k < |lines| ensures BoardLineOk(kind, lines[k]) { assert LineLoadsAs(kind, lines[k], es[k]); }
      }
      assert LineLoadsAs(kind, lines[n], es[n]);
      LoadedStep(kind, lines, n);
      LastSplit(lines);
      LastSplit(es);
    }
  }

  /** Lines each of which the loader skips load as nothing. */
  lemma {:induction false} SkipAll(kind: BoardKind, lines: seq<string>)
    requires forall i :: 0 <= i < |lines| ==> LineSkipped(kind, lines[i])
    ensures BoardLinesOk(kind, lines) && LoadedEntries(kind, lines) == []
    decreases |lines|
  {
    if |lines| > 0 {
      var n := |lines| - 1;
      assert forall i :: 0 <= i < n ==> lines[..n][i] == lines[i];
      SkipAll(kind, lines[..n]);
      assert BoardLinesOk(kind, lines) by {
        forall k | 0 <= k < |lines| ensures BoardLineOk(kind, lines[k]) { assert LineSkipped(kind, lines[k]); }
      }
      assert LineSkipped(kind, lines[n]);
      LoadedStep(kind, lines, n);
      LastSplit(lines);
    }
  }

  lemma EntryLinesPrefix(kind: BoardKind, es: seq<Entry>, n: nat)
    requires n <= |es|
    ensures EntryLines(kind, es)[..n] == EntryLines(kind, es[..n])
  {
    var lines := EntryLines(kind, es);
    var pre := EntryLines(kind, es[..n]);
    assert |lines[..n]| == |pre|;
    forall k | 0 <= k < n ensures lines[..n][k] == pre[k] {
      assert es[..n][k] == es[k];
    }
  }

  /** One saved line of the GUI or header board is accepted and parses back to its entry. */
  lemma EntryLineLoads(kind: BoardKind, e: Entry)
    requires kind != RootBoard
    requires Storable(e) && (kind == GuiBoard ==> e.timestamp == "")
    ensures EntryLine(kind, e) != [] && Accepted(kind, Tokens(EntryLine(kind, e), '|'))
    ensures BoardLineOk(kind, EntryLine(kind, e))
    ensures ParseEntry(kind, Tokens(EntryLine(kind, e), '|')) == e
  {
    EntryLineTokens(kind, e);
    IntsParse(e);
  }

  lemma IntsParse(e: Entry)
    ensures ParseInt(IntToString(e.winnings)) == Some(e.winnings)
    ensures ParseInt(IntToString(e.level)) == Some(e.level)
    ensures ParseInt(IntToString(e.gamesPlayed)) == Some(e.gamesPlayed)
  {
    ParseIntOfIntToString(e.winnings);
    ParseIntOfIntToString(e.level);
    ParseIntOfIntToString(e.gamesPlayed);
  }

  /** The root board saves four fields per line, and its loader wants five: nothing it saves is read back. */
  lemma {:induction false} RootBoardNeverReloads(es: seq<Entry>)
    requires forall i :: 0 <= i < |es| ==> Storable(es[i])
    ensures BoardLinesOk(RootBoard, Tokens(SaveText(RootBoard, es), '\n'))
    ensures LoadedEntries(RootBoard, Tokens(SaveText(RootBoard, es), '\n')) == []
  {
    var lines := EntryLines(RootBoard, es);
    forall i | 0 <= i < |es| ensures Free(lines[i], '\n') { EntryLineTokens(RootBoard, es[i]); }
    TokensOfUnlines(lines);
    RootLinesRejected(es);
  }

  lemma RootLinesRejected(es: seq<Entry>)
    requires forall i :: 0 <= i < |es| ==> Storable(es[i])
    ensures BoardLinesOk(RootBoard, EntryLines(RootBoard, es))
    ensures LoadedEntries(RootBoard, EntryLines(RootBoard, es)) == []
  {
    var lines := EntryLines(RootBoard, es);
    forall i | 0 <= i < |es| ensures LineSkipped(RootBoard, lines[i]) {
      EntryLineTokens(RootBoard, es[i]);
      assert |Tokens(lines[i], '|')| == 4;
    }
    SkipAll(RootBoard, lines);
  }

  /**
   * A timestamp ending in a newline, as `ctime` produces, splits the header
   * board's saved line in two: "name|w|l|time" has four tokens and "|g" two,
   * so the entry is not read back.
   */
  lemma NewlineTimestampLost(e: Entry, time: string)
    requires e.timestamp == time + "\n" && time != []
    requires Free(e.playerName, '|') && Free(e.playerName, '\n') && Free(time, '|') && Free(time, '\n')
    ensures BoardLinesOk(HeaderBoard, Tokens(SaveText(HeaderBoard, [e]), '\n'))
    ensures LoadedEntries(HeaderBoard, Tokens(SaveText(HeaderBoard, [e]), '\n')) == []
  {
    var w, l, g := IntToString(e.winnings), IntToString(e.level), IntToString(e.gamesPlayed);
    IntToStringFree(e.winnings, '|');
    IntToStringFree(e.level, '|');
    IntToStringFree(e.gamesPlayed, '|');
    IntToStringFree(e.winnings, '\n');
    IntToStringFree(e.level, '\n');
    IntToStringFree(e.gamesPlayed, '\n');
    var first := Join([e.playerName, w, l, time], '|');
    var second := Join(["", g], '|');
    HeaderLineSplit(e, time);
    SaveOne(HeaderBoard, e);
    UnlinesTwo(first, second);
    JoinFree([e.playerName, w, l, time], '|', '\n');
    JoinFree(["", g], '|', '\n');
    TokensOfUnlines([first, second]);
    TokensOfJoin([e.playerName, w, l, time], '|');
    TokensOfJoin(["", g], '|');
    ShortLinesRejected(first, second);
  }

  /** The header line with a newline-terminated timestamp is "name|w|l|time", a newline, and "|g". */
  lemma HeaderLineSplit(e: Entry, time: string)
    requires e.timestamp == time + "\n"
    ensures EntryLine(HeaderBoard, e)
      == Join([e.playerName, IntToString(e.winnings), IntToString(e.level), time], '|') + "\n"
         + Join(["", IntToString(e.gamesPlayed)], '|')
  {
    var w, l, g := IntToString(e.winnings), IntToString(e.level), IntToString(e.gamesPlayed);
    var f := [e.playerName, w, l, e.timestamp, g];
    var h := [e.playerName, w, l, time];
    JoinSnoc(f, '|');
    JoinExtendLast(h, "\n", '|');
    assert f[..4] == h[..3] + [time + "\n"];
    assert ["", g][1..] == [g];
    var a := Join(h, '|') + "\n";
    Assoc(a, ['|'], g);
    assert "" + ['|'] == ['|'];
  }

  /** Appending to the last field appends to the joined text. */
  lemma {:induction false} JoinExtendLast(fields: seq<string>, x: string, d: char)
    requires |fields| >= 1
    ensures Join(fields[..|fields| - 1] + [fields[|fields| - 1] + x], d) == Join(fields, d) + x
    decreases |fields|
  {
    var n := |fields|;
    var g := fields[..n - 1] + [fields[n - 1] + x];
    if n > 1 {
      var t := fields[1..];
      JoinExtendLast(t, x, d);
      assert g[1..] == t[..|t| - 1] + [t[|t| - 1] + x];
      Assoc(fields[0] + [d], Join(t, d), x);
    }
  }

  lemma SaveOne(kind: BoardKind, e: Entry)
    ensures SaveText(kind, [e]) == EntryLine(kind, e) + "\n"
  {
    var l := EntryLine(kind, e);
    assert EntryLines(kind, [e]) == [l];
    assert Unlines([l]) == l + "\n" + Unlines([]);
  }

  lemma UnlinesTwo(a: string, b: string)
    ensures Unlines([a, b]) == a + "\n" + b + "\n"
  {
    assert [a, b][1..] == [b] && [b][1..] == [];
    assert Unlines([b]) == b + "\n" + Unlines([]);
    assert Unlines([a, b]) == a + "\n" + Unlines([b]);
  }

  /** Lines of four and two fields are both below the header board's five. */
  lemma ShortLinesRejected(first: string, second: string)
    requires |Tokens(first, '|')| == 4 && |Tokens(second, '|')| == 2
    ensures BoardLinesOk(HeaderBoard, [first, second])
    ensures LoadedEntries(HeaderBoard, [first, second]) == []
  {
    SkipAll(HeaderBoard, [first, second]);
  }

  lemma {:induction false} JoinSnoc(fields: seq<string>, d: char)
    requires |fields| >= 2
    ensures Join(fields, d) == Join(fields[..|fields| - 1], d) + [d] + fields[|fields| - 1]
    decreases |fields|
  {
    if |fields| > 2 {
      JoinSnoc(fields[1..], d);
      assert fields[1..][..|fields| - 2] == fields[..|fields| - 1][1..];
    }
  }

  // ---------------------------------------------------------------------
  // Sums over entries.

  function SumWinnings(es: seq<Entry>): int
  {
    if |es| == 0 then 0 else SumWinnings(es[..|es| - 1]) + es[|es| - 1].winnings
  }

  function SumLevels(es: seq<Entry>): int
  {
    if |es| == 0 then 0 else SumLevels(es[..|es| - 1]) + es[|es| - 1].level
  }

  /** The low 32 bits of x read as a signed `int`. */
  function ToInt32(x: int): int
  {
    var m := x % 0x1_0000_0000;
    if m >= 0x8000_0000 then m - 0x1_0000_0000 else m
  }

  /** `sum / entries.size()`: the int sum is converted to the unsigned 64-bit size type first, and the quotient back to int. */
  function AverageLevelOf(es: seq<Entry>): int
  {
    if |es| == 0 then 0
    else
      var sum := SumLevels(es);
      var u := if sum >= 0 then sum else sum + 0x1_0000_0000_0000_0000;
      ToInt32(u / |es|)
  }

  /** With non-negative levels (the ladder's 0..15) the average is the floor of the mean and lies between 0 and any upper bound `hi` on the levels. */
  lemma {:induction false} AverageLevelIsFloorOfMean(es: seq<Entry>, hi: nat)
    requires es != []
    requires forall i :: 0 <= i < |es| ==> 0 <= es[i].level <= hi && hi < 0x8000_0000
    ensures AverageLevelOf(es) == SumLevels(es) / |es|
    ensures 0 <= AverageLevelOf(es) <= hi
  {
    SumLevelsBounds(es, hi);
    var s := SumLevels(es);
    var q := s / |es|;
    DivBound(s, |es|, hi);
    ToInt32Small(q);
    assert AverageLevelOf(es) == ToInt32(q);
  }

  lemma ToInt32Small(x: int)
    requires 0 <= x < 0x8000_0000
    ensures ToInt32(x) == x
  {
  }

  lemma DivBound(s: int, n: nat, hi: nat)
    requires n > 0 && 0 <= s <= n * hi
    ensures 0 <= s / n <= hi
  {
  }

  lemma {:induction false} SumLevelsBounds(es: seq<Entry>, hi: nat)
    requires forall i :: 0 <= i < |es| ==> 0 <= es[i].level <= hi
    ensures 0 <= SumLevels(es) <= |es| * hi
  {
    if es != [] {
      SumLevelsBounds(es[..|es| - 1], hi);
    }
  }

  /** The name filter `getPlayerHistory` applies. */
  function History(es: seq<Entry>, name: string): (r: seq<Entry>)
    ensures |r| <= |es|
    ensures forall i :: 0 <= i < |r| ==> r[i].playerName == name
    ensures multiset(r) <= multiset(es)
  {
    if |es| == 0 then []
    else
      var n := |es| - 1;
      assert es == es[..n] + [es[n]];
      History(es[..n], name) + (if es[n].playerName == name then [es[n]] else [])
  }

  /** Every entry with the name is kept: the history has as many copies of each such entry as the board. */
  lemma {:induction false} HistoryComplete(es: seq<Entry>, name: string, e: Entry)
    requires e.playerName == name
    ensures multiset(History(es, name))[e] == multiset(es)[e]
  {
    if es != [] {
      var n := |es| - 1;
      assert es == es[..n] + [es[n]];
      HistoryComplete(es[..n], name, e);
    }
  }

  /** The list `addEntry` leaves: `e` appended, the best 100 kept when that makes too many, then sorted. */
  function AddedTo(es: seq<Entry>, e: Entry): seq<Entry>
  {
    var all := es + [e];
    if |all| <= MAX_ENTRIES then MSort(all) else MSort(MSort(all)[..MAX_ENTRIES])
  }

  /**
   * The list after `addEntry` is sorted and at most 100 long, holds the new
   * entry and all the old ones while there is room, and otherwise exactly
   * 100 of them: the first 100 of the sorted list, none of which comes
   * after any entry that was dropped.
   */
  lemma AddedToKeeps(es: seq<Entry>, e: Entry)
    ensures Sorted(AddedTo(es, e)) && |AddedTo(es, e)| <= MAX_ENTRIES
    ensures |es| < MAX_ENTRIES ==> multiset(AddedTo(es, e)) == multiset(es) + multiset{e}
    ensures |es| >= MAX_ENTRIES ==>
      |AddedTo(es, e)| == MAX_ENTRIES && multiset(AddedTo(es, e)) <= multiset(es) + multiset{e}
    ensures |es| >= MAX_ENTRIES ==>
      var s := MSort(es + [e]);
      && multiset(s) == multiset(es) + multiset{e}
      && multiset(AddedTo(es, e)) == multiset(s[..MAX_ENTRIES])
      && forall i, j :: 0 <= i < MAX_ENTRIES <= j < |s| ==> Le(s[i], s[j])
  {
    var all := es + [e];
    MSortSortedPermutation(all);
    if |all| > MAX_ENTRIES {
      var s := MSort(all);
      MSortSortedPermutation(s[..MAX_ENTRIES]);
      assert s == s[..MAX_ENTRIES] + s[MAX_ENTRIES..];
      assert multiset(s) == multiset(s[..MAX_ENTRIES]) + multiset(s[MAX_ENTRIES..]);
    }
  }

  class Leaderboard {
    const kind: BoardKind
    var entries: seq<Entry>
    /** The contents of the leaderboard file, as last written. */
    var savedText: string

    /** The constructor runs `loadFromFile` on the file's contents (None: it cannot be opened). */
    constructor (kind: BoardKind, file: Option<string>)
      requires file.Some? ==> BoardLinesOk(kind, Tokens(file.value, '\n'))
      ensures this.kind == kind
      ensures file.None? ==> entries == []
      ensures file.Some? ==> entries == MSort(LoadedEntries(kind, Tokens(file.value, '\n')))
      ensures savedText == if file.Some? then file.value else ""
    {
      this.kind := kind;
      entries := [];
      savedText := if file.Some? then file.value else "";
      new;
      LoadFromFile(file);
      assert file.Some? ==> [] + LoadedEntries(kind, Tokens(file.value, '\n')) == LoadedEntries(kind, Tokens(file.value, '\n'));
    }

    method SortEntries()
      modifies this`entries
      ensures entries == MSort(old(entries))
      ensures Sorted(entries) && multiset(entries) == multiset(old(entries))
    {
      MSortSortedPermutation(entries);
      if |entries| <= 1 {
        return;
      }
      var es := entries;
      var a := new Entry[|es|](i requires 0 <= i < |es| => es[i]);
      assert a[0..a.Length] == es;
      MergeSort(a, 0, a.Length - 1);
      assert a[0..a.Length] == a[..];
      entries := a[..];
    }

    method LoadFromFile(file: Option<string>)
      requires file.Some? ==> BoardLinesOk(kind, Tokens(file.value, '\n'))
      modifies this`entries
      ensures file.None? ==> entries == old(entries)
      ensures file.Some? ==> entries == MSort(old(entries) + LoadedEntries(kind, Tokens(file.value, '\n')))
    {
      if file.None? {
        return;
      }
      var lines := ReadTokens(file.value, '\n');
      ghost var e0 := entries;
      var i := 0;
      while i < |lines|
        invariant 0 <= i <= |lines|
        invariant BoardLinesOk(kind, lines[..i])
        invariant entries == e0 + LoadedEntries(kind, lines[..i])
      {
        LoadedStep(kind, lines, i);
        Assoc(e0, LoadedEntries(kind, lines[..i]), LineEntries(kind, lines[i]));
        LoadLine(lines[i]);
        i := i + 1;
      }
      assert lines[..|lines|] == lines;
      SortEntries();
    }

    /** One line of the file: an entry appended when the line is non-empty and has the accepted token count. */
    method LoadLine(line: string)
      requires BoardLineOk(kind, line)
      modifies this`entries
      ensures entries == old(entries) + LineEntries(kind, line)
    {
      if line != [] {
        var tokens := ReadTokens(line, '|');
        if Accepted(kind, tokens) {
          entries := entries + [ParseEntry(kind, tokens)];
        }
      }
    }

    method SaveToFile()
      modifies this`savedText
      ensures savedText == SaveText(kind, entries)
    {
      var text := "";
      var i := 0;
      while i < |entries|
        invariant 0 <= i <= |entries|
        invariant text + SaveText(kind, entries[i..]) == SaveText(kind, entries)
      {
        assert entries[i..][1..] == entries[i + 1..];
        text := text + EntryLine(kind, entries[i]) + "\n";
        i := i + 1;
      }
      savedText := text;
    }

    /**
     * Appends the player's result, keeps the best 100 when over, sorts and
     * saves. The GUI board drops the timestamp.
     */
    method AddEntry(player: Players.Player, timestamp: string)
      modifies this`entries, this`savedText
      ensures entries == AddedTo(old(entries), Entry(player.name, player.totalWinnings, player.currentLevel,
                                                     if kind == GuiBoard then "" else timestamp, player.questionsAnswered))
      ensures Sorted(entries) && |entries| <= MAX_ENTRIES
      ensures savedText == SaveText(kind, entries)
    {
      var e := Entry(player.name, player.totalWinnings, player.currentLevel,
                     if kind == GuiBoard then "" else timestamp, player.questionsAnswered);
      entries := entries + [e];
      if |entries| > MAX_ENTRIES {
        SortEntries();
        entries := entries[..MAX_ENTRIES];
      }
      SortEntries();
      SaveToFile();
    }

    /** Reads only: the first min(count, size) entries, none for a negative count. */
    method GetTopEntries(count: int) returns (top: seq<Entry>)
      ensures top == entries[..if count < 0 then 0 else if count < |entries| then count else |entries|]
    {
      top := [];
      var n := if count < |entries| then count else |entries|;
      var i := 0;
      while i < n
        invariant 0 <= i <= (if n < 0 then 0 else n) && top == entries[..i]
      {
        top := top + [entries[i]];
        i := i + 1;
      }
    }

    /** Reads only: the entries with exactly this name, in stored order. */
    method GetPlayerHistory(playerName: string) returns (history: seq<Entry>)
      ensures history == History(entries, playerName)
    {
      history := [];
      var i := 0;
      while i < |entries|
        invariant 0 <= i <= |entries| && history == History(entries[..i], playerName)
      {
        assert entries[..i + 1][..i] == entries[..i];
        if entries[i].playerName == playerName {
          history := history + [entries[i]];
        }
        i := i + 1;
      }
      assert entries[..|entries|] == entries;
    }

    function GetTotalGames(): nat
      reads this
    {
      |entries|
    }

    /** Reads only: the sum of all winnings. */
    method GetTotalPrizePool() returns (total: int)
      ensures total == SumWinnings(entries)
    {
      total := 0;
      var i := 0;
      while i < |entries|
        invariant 0 <= i <= |entries| && total == SumWinnings(entries[..i])
      {
        assert entries[..i + 1][..i] == entries[..i];
        total := total + entries[i].winnings;
        i := i + 1;
      }
      assert entries[..|entries|] == entries;
    }

    /** Reads only: 0 when empty, else the level sum divided by the count. */
    method GetAverageLevel() returns (avg: int)
      ensures avg == AverageLevelOf(entries)
      ensures entries == [] ==> avg == 0
    {
      if entries == [] {
        return 0;
      }
      var sum := 0;
      var i := 0;
      while i < |entries|
        invariant 0 <= i <= |entries| && sum == SumLevels(entries[..i])
      {
        assert entries[..i + 1][..i] == entries[..i];
        sum := sum + entries[i].level;
        i := i + 1;
      }
      assert entries[..|entries|] == entries;
      var u := if sum >= 0 then sum else sum + 0x1_0000_0000_0000_0000;
      avg := ToInt32(u / |entries|);
    }
  }
}
