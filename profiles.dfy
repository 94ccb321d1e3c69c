/**
 * The player profile store: a map from player name to aggregate
 * statistics, with create-if-absent lookup, additive updates after each
 * game, and a `|`-separated line per profile on disk.
 *
 * Two builds: the root store (player_profile.cpp, five fields per line)
 * and the header store (player_profile.h, eight fields per line, and a
 * per-profile `recordGameResult` that also counts answered questions).
 *
 * An `unordered_map` iterates in an order the program does not choose;
 * saving therefore takes that order as a parameter, a sequence listing
 * every name once.
 */
module Profiles {
  import opened Wrappers
  import opened Text

  datatype StoreKind = RootStore | HeaderStore

  /**
   * PlayerStats, held by value in the map. The root build has no answer
   * counters; they stay 0 there. The float win rate is not part of the model.
   */
  datatype PlayerStats = PlayerStats(
    playerName: string,
    gender: string,
    gamesPlayed: int,
    totalWinnings: int,
    maxLevel: int,
    totalCorrectAnswers: int,
    totalQuestionsAnswered: int)

  /** `PlayerStats(name, gender)`: every counter zero. */
  function NewStats(name: string, gender: string): (s: PlayerStats)
    ensures s.playerName == name && s.gender == gender
    ensures s.gamesPlayed == 0 && s.totalWinnings == 0 && s.maxLevel == 0
    ensures s.totalCorrectAnswers == 0 && s.totalQuestionsAnswered == 0
  {
    PlayerStats(name, gender, 0, 0, 0, 0, 0)
  }

  /**
   * One finished game added to a profile: one more game, the winnings
   * added, the best level kept. The header build's `recordGameResult` also
   * adds the questions answered to both answer counters.
   */
  function Recorded(kind: StoreKind, s: PlayerStats, winnings: int, level: int, questionsAnswered: int): PlayerStats
  {
    var t := s.(gamesPlayed := s.gamesPlayed + 1, totalWinnings := s.totalWinnings + winnings,
                maxLevel := if level > s.maxLevel then level else s.maxLevel);
    if kind == HeaderStore then
      t.(totalQuestionsAnswered := s.totalQuestionsAnswered + questionsAnswered,
         totalCorrectAnswers := s.totalCorrectAnswers + questionsAnswered)
    else t
  }

  /** Recording a game changes the counters as promised and nothing else. */
  lemma RecordedFields(kind: StoreKind, s: PlayerStats, winnings: int, level: int, questionsAnswered: int)
    ensures var r := Recorded(kind, s, winnings, level, questionsAnswered);
      && r.playerName == s.playerName && r.gender == s.gender
      && r.gamesPlayed == s.gamesPlayed + 1
      && r.totalWinnings == s.totalWinnings + winnings
      && r.maxLevel >= s.maxLevel && r.maxLevel >= level
      && (r.maxLevel == s.maxLevel || r.maxLevel == level)
      && (kind == RootStore ==>
            r.totalQuestionsAnswered == s.totalQuestionsAnswered && r.totalCorrectAnswers == s.totalCorrectAnswers)
      && (kind == HeaderStore ==>
            r.totalQuestionsAnswered == s.totalQuestionsAnswered + questionsAnswered
            && r.totalCorrectAnswers == s.totalCorrectAnswers + questionsAnswered)
  {
  }

  /** The store after `updatePlayerStats`: a known name's profile records the game, every other profile is untouched and no name is added. */
  function AfterGame(kind: StoreKind, m: map<string, PlayerStats>, name: string, winnings: int, level: int, questionsAnswered: int)
    : (r: map<string, PlayerStats>)
    ensures r.Keys == m.Keys
    ensures forall k :: k in m && k != name ==> r[k] == m[k]
    ensures name in m ==> r[name] == Recorded(kind, m[name], winnings, level, questionsAnswered)
  {
    if name in m then m[name := Recorded(kind, m[name], winnings, level, questionsAnswered)] else m
  }

  /** A finished game: the arguments of one `updatePlayerStats` call. */
  datatype Game = Game(winnings: int, level: int, questionsAnswered: int)

  /** The profile after the games, oldest first. */
  function RecordedAll(kind: StoreKind, s: PlayerStats, games: seq<Game>): PlayerStats
  {
    if |games| == 0 then s
    else
      var g := games[|games| - 1];
      Recorded(kind, RecordedAll(kind, s, games[..|games| - 1]), g.winnings, g.level, g.questionsAnswered)
  }

  function SumWinnings(games: seq<Game>): int
  {
    if |games| == 0 then 0 else SumWinnings(games[..|games| - 1]) + games[|games| - 1].winnings
  }

  function SumAnswered(games: seq<Game>): int
  {
    if |games| == 0 then 0 else SumAnswered(games[..|games| - 1]) + games[|games| - 1].questionsAnswered
  }

  /**
   * From a new profile, the counters are the number of games, the total
   * winnings and the best level (never below 0); in the header build both
   * answer counters are the total answered, so they stay equal.
   */
  lemma {:induction false} RecordedAllTotals(kind: StoreKind, name: string, gender: string, games: seq<Game>)
    ensures var r := RecordedAll(kind, NewStats(name, gender), games);
      && r.playerName == name && r.gender == gender
      && r.gamesPlayed == |games|
      && r.totalWinnings == SumWinnings(games)
      && r.maxLevel >= 0
      && (forall i :: 0 <= i < |games| ==> r.maxLevel >= games[i].level)
      && (r.maxLevel == 0 || exists i :: 0 <= i < |games| && r.maxLevel == games[i].level)
      && r.totalCorrectAnswers == r.totalQuestionsAnswered
      && r.totalQuestionsAnswered == (if kind == HeaderStore then SumAnswered(games) else 0)
  {
    if |games| > 0 {
      var n := |games| - 1;
      var pre := games[..n];
      RecordedAllTotals(kind, name, gender, pre);
      var p := RecordedAll(kind, NewStats(name, gender), pre);
      var r := RecordedAll(kind, NewStats(name, gender), games);
      assert r == Recorded(kind, p, games[n].winnings, games[n].level, games[n].questionsAnswered);
      forall i | 0 <= i < |games| ensures r.maxLevel >= games[i].level {
        if i < n { assert games[i] == pre[i]; }
      }
      if r.maxLevel != 0 {
        if r.maxLevel == games[n].level {
        } else {
          assert r.maxLevel == p.maxLevel;
          var i :| 0 <= i < n && p.maxLevel == pre[i].level;
          assert games[i] == pre[i];
        }
      }
    }
  }

  /** The header build's private `sanitizeName`: every `|` and newline dropped, the rest kept in order. */
  function SanitizeName(name: string): (r: string)
    ensures Free(r, '|') && Free(r, '\n')
    ensures |r| <= |name|
  {
    if |name| == 0 then []
    else
      var c := name[|name| - 1];
      SanitizeName(name[..|name| - 1]) + (if c != '|' && c != '\n' then [c] else [])
  }

  /** A name that already has no `|` or newline comes back unchanged, so sanitising twice is sanitising once. */
  lemma {:induction false} SanitizeKeepsClean(name: string)
    requires Free(name, '|') && Free(name, '\n')
    ensures SanitizeName(name) == name
  {
    if |name| > 0 {
      var n := |name| - 1;
      assert Free(name[..n], '|') && Free(name[..n], '\n') by {
        assert forall i :: 0 <= i < n ==> name[..n][i] == name[i];
      }
      SanitizeKeepsClean(name[..n]);
      assert name[n] != '|' && name[n] != '\n';
      LastSplit(name);
    }
  }

  lemma SanitizeIdempotent(name: string)
    ensures SanitizeName(SanitizeName(name)) == SanitizeName(name)
  {
    SanitizeKeepsClean(SanitizeName(name));
  }

  /** Exactly the characters other than `|` and newline survive, each as often as in the input. */
  lemma {:induction false} SanitizeCounts(name: string, c: char)
    ensures multiset(SanitizeName(name))[c] == if c == '|' || c == '\n' then 0 else multiset(name)[c]
  {
    if |name| > 0 {
      var n := |name| - 1;
      SanitizeCounts(name[..n], c);
      LastSplit(name);
      assert multiset(name) == multiset(name[..n]) + multiset{name[n]};
    }
  }

  // ---------------------------------------------------------------------
  // The file format.

  /**
   * The eighth field of the header store holds the float win rate, which
   * the model does not compute; it is written as "0".
   */
  const WIN_RATE_FIELD := "0"

  /** The fields saved for the profile filed under `key` (the root store writes the key, the header store the stored name). */
  function Fields(kind: StoreKind, key: string, s: PlayerStats): (f: seq<string>)
    ensures |f| == if kind == RootStore then 5 else 8
  {
    if kind == RootStore then
      [key, s.gender, IntToString(s.gamesPlayed), IntToString(s.totalWinnings), IntToString(s.maxLevel)]
    else
      [s.playerName, s.gender, IntToString(s.gamesPlayed), IntToString(s.totalWinnings), IntToString(s.maxLevel),
       IntToString(s.totalCorrectAnswers), IntToString(s.totalQuestionsAnswered), WIN_RATE_FIELD]
  }

  function ProfileLine(kind: StoreKind, key: string, s: PlayerStats): string
  {
    Join(Fields(kind, key, s), '|')
  }

  function ProfileLines(kind: StoreKind, profiles: map<string, PlayerStats>, order: seq<string>): (r: seq<string>)
    requires forall i :: 0 <= i < |order| ==> order[i] in profiles
    ensures |r| == |order|
    ensures forall i :: 0 <= i < |order| ==> r[i] == ProfileLine(kind, order[i], profiles[order[i]])
  {
    if |order| == 0 then [] else [ProfileLine(kind, order[0], profiles[order[0]])] + ProfileLines(kind, profiles, order[1..])
  }

  /** The file `saveProfiles` writes when the map iterates in `order`. */
  function SaveText(kind: StoreKind, profiles: map<string, PlayerStats>, order: seq<string>): string
    requires forall i :: 0 <= i < |order| ==> order[i] in profiles
  {
    Unlines(ProfileLines(kind, profiles, order))
  }

  /** `order` lists every name of the map, and nothing else. */
  predicate Lists(profiles: map<string, PlayerStats>, order: seq<string>)
  {
    profiles.Keys == set i | 0 <= i < |order| :: order[i]
  }

  /** The token counts the loader accepts: five or more (root), eight or more (header). */
  predicate Accepted(kind: StoreKind, t: seq<string>)
  {
    if kind == RootStore then |t| >= 5 else |t| >= 8
  }

  /**
   * The numeric tokens of an accepted line parse; `stoi`, `stoll` and
   * `stof` throw otherwise. `stof` is taken to accept what `stoi` accepts.
   */
  predicate NumbersParse(kind: StoreKind, t: seq<string>)
  {
    Accepted(kind, t) ==>
      ParseInt(t[2]).Some? && ParseInt(t[3]).Some? && ParseInt(t[4]).Some?
      && (kind == HeaderStore ==> ParseInt(t[5]).Some? && ParseInt(t[6]).Some? && ParseInt(t[7]).Some?)
  }

  predicate LineOk(kind: StoreKind, line: string)
  {
    line != [] ==> NumbersParse(kind, Tokens(line, '|'))
  }

  predicate LinesOk(kind: StoreKind, lines: seq<string>)
  {
    forall k :: 0 <= k < |lines| ==> LineOk(kind, lines[k])
  }

  function ParseStats(kind: StoreKind, t: seq<string>): PlayerStats
    requires Accepted(kind, t) && NumbersParse(kind, t)
  {
    if kind == RootStore then
      PlayerStats(t[0], t[1], ParseInt(t[2]).value, ParseInt(t[3]).value, ParseInt(t[4]).value, 0, 0)
    else
      PlayerStats(t[0], t[1], ParseInt(t[2]).value, ParseInt(t[3]).value, ParseInt(t[4]).value,
                  ParseInt(t[5]).value, ParseInt(t[6]).value)
  }

  /** One line read into `m`: a kept line files its profile under token 0, replacing any profile of that name. */
  function LoadLine(kind: StoreKind, m: map<string, PlayerStats>, line: string): map<string, PlayerStats>
    requires LineOk(kind, line)
  {
    var t := Tokens(line, '|');
    if line != [] && Accepted(kind, t) then m[t[0] := ParseStats(kind, t)] else m
  }

  /** `loadProfiles` over `lines` starting from `m`, later lines overwriting earlier ones. */
  function LoadedProfiles(kind: StoreKind, m: map<string, PlayerStats>, lines: seq<string>): map<string, PlayerStats>
    requires LinesOk(kind, lines)
  {
    if |lines| == 0 then m
    else
      var n := |lines| - 1;
      assert LineOk(kind, lines[n]);
      LoadLine(kind, LoadedProfiles(kind, m, lines[..n]), lines[n])
  }

  lemma LoadedStep(kind: StoreKind, m: map<string, PlayerStats>, lines: seq<string>, i: nat)
    requires i < |lines| && LinesOk(kind, lines)
    ensures LineOk(kind, lines[i]) && LinesOk(kind, lines[..i + 1]) && LinesOk(kind, lines[..i])
    ensures LoadedProfiles(kind, m, lines[..i + 1]) == LoadLine(kind, LoadedProfiles(kind, m, lines[..i]), lines[i])
  {
    assert lines[..i + 1][..i] == lines[..i];
  }

  /** Every loaded profile is filed under its own name, and the root store's answer counters are zero. */
  lemma {:induction false} LoadedConsistent(kind: StoreKind, m: map<string, PlayerStats>, lines: seq<string>)
    requires LinesOk(kind, lines) && Consistent(kind, m)
    ensures Consistent(kind, LoadedProfiles(kind, m, lines))
  {
    if |lines| > 0 {
      var n := |lines| - 1;
      assert LinesOk(kind, lines[..n]) by {
        assert forall i :: 0 <= i < n ==> lines[..n][i] == lines[i];
      }
      LoadedConsistent(kind, m, lines[..n]);
    }
  }

  /** The invariant the store keeps: each profile is filed under its own name; root profiles have no answer counts. */
  predicate Consistent(kind: StoreKind, profiles: map<string, PlayerStats>)
  {
    forall k :: k in profiles ==>
      profiles[k].playerName == k
      && (kind == RootStore ==> profiles[k].totalCorrectAnswers == 0 && profiles[k].totalQuestionsAnswered == 0)
  }

  /** Names and genders that survive the line format. */
  predicate Storable(profiles: map<string, PlayerStats>)
  {
    forall k :: k in profiles ==>
      Free(k, '|') && Free(k, '\n') && Free(profiles[k].gender, '|') && Free(profiles[k].gender, '\n')
  }

  /** `line` is kept by the loader and files `s` under `key`. */
  predicate LineLoadsAs(kind: StoreKind, line: string, key: string, s: PlayerStats)
  {
    var t := Tokens(line, '|');
    line != [] && Accepted(kind, t) && NumbersParse(kind, t) && t[0] == key && ParseStats(kind, t) == s
  }

  lemma LineLoadsInto(kind: StoreKind, m: map<string, PlayerStats>, line: string, key: string, s: PlayerStats)
    requires LineLoadsAs(kind, line, key, s)
    ensures LineOk(kind, line) && LoadLine(kind, m, line) == m[key := s]
  {
  }

  /** `m` with `keys[i]` set to `vals[i]` one after another. */
  function PutAll(m: map<string, PlayerStats>, keys: seq<string>, vals: seq<PlayerStats>): map<string, PlayerStats>
    requires |keys| == |vals|
  {
    if |keys| == 0 then m
    else
      var n := |keys| - 1;
      PutAll(m, keys[..n], vals[..n])[keys[n] := vals[n]]
  }

  /** Lines each of which loads as some profile can all be read without an exception. */
  lemma LoadsAsOk(kind: StoreKind, lines: seq<string>, keys: seq<string>, vals: seq<PlayerStats>)
    requires |lines| == |keys| == |vals|
    requires forall i :: 0 <= i < |lines| ==> LineLoadsAs(kind, lines[i], keys[i], vals[i])
    ensures LinesOk(kind, lines)
  {
    forall k | 0 <= k < |lines| ensures LineOk(kind, lines[k]) { assert LineLoadsAs(kind, lines[k], keys[k], vals[k]); }
  }

  /** Lines each of which files the matching profile load as those assignments in order. */
  lemma {:induction false} LoadAll(kind: StoreKind, m: map<string, PlayerStats>, lines: seq<string>,
                                   keys: seq<string>, vals: seq<PlayerStats>)
    requires |lines| == |keys| == |vals| && LinesOk(kind, lines)
    requires forall i :: 0 <= i < |lines| ==> LineLoadsAs(kind, lines[i], keys[i], vals[i])
    ensures LoadedProfiles(kind, m, lines) == PutAll(m, keys, vals)
    decreases |lines|
  {
    if |lines| > 0 {
      var n := |lines| - 1;
      assert LinesOk(kind, lines[..n]) by {
        forall k | 0 <= k < n ensures LineOk(kind, lines[..n][k]) { assert lines[..n][k] == lines[k]; }
      }
      forall i | 0 <= i < n ensures LineLoadsAs(kind, lines[..n][i], keys[..n][i], vals[..n][i]) {
        assert lines[..n][i] == lines[i] && keys[..n][i] == keys[i] && vals[..n][i] == vals[i];
      }
      LoadAll(kind, m, lines[..n], keys[..n], vals[..n]);
      LineLoadsInto(kind, LoadedProfiles(kind, m, lines[..n]), lines[n], keys[n], vals[n]);
    }
  }

  /** Setting every listed name to its profile in `p`, starting from the empty map, rebuilds `p`. */
  lemma {:induction false} PutAllRebuilds(p: map<string, PlayerStats>, order: seq<string>, vals: seq<PlayerStats>)
    requires |order| == |vals|
    requires forall i :: 0 <= i < |order| ==> order[i] in p && vals[i] == p[order[i]]
    ensures PutAll(map[], order, vals).Keys == set i | 0 <= i < |order| :: order[i]
    ensures forall k :: k in PutAll(map[], order, vals) ==> PutAll(map[], order, vals)[k] == p[k]
  {
    if |order| > 0 {
      var n := |order| - 1;
      PutAllRebuilds(p, order[..n], vals[..n]);
      assert (set i | 0 <= i < |order| :: order[i]) == (set i | 0 <= i < n :: order[..n][i]) + {order[n]};
    }
  }

  /** The line of a storable, consistent profile loads back as that profile under its name. */
  lemma ProfileLineLoads(kind: StoreKind, key: string, s: PlayerStats)
    requires s.playerName == key
    requires kind == RootStore ==> s.totalCorrectAnswers == 0 && s.totalQuestionsAnswered == 0
    requires Free(key, '|') && Free(key, '\n') && Free(s.gender, '|') && Free(s.gender, '\n')
    ensures Free(ProfileLine(kind, key, s), '\n')
    ensures LineLoadsAs(kind, ProfileLine(kind, key, s), key, s)
  {
    var f := Fields(kind, key, s);
    FieldsFree(kind, key, s, '|');
    FieldsFree(kind, key, s, '\n');
    NumberFields(s);
    var g, w, l := IntToString(s.gamesPlayed), IntToString(s.totalWinnings), IntToString(s.maxLevel);
    assert f[0] == key && f[1] == s.gender && f[2] == g && f[3] == w && f[4] == l;
    assert ParseInt(f[2]) == Some(s.gamesPlayed) && ParseInt(f[3]) == Some(s.totalWinnings)
      && ParseInt(f[4]) == Some(s.maxLevel);
    if kind == HeaderStore {
      var c, q := IntToString(s.totalCorrectAnswers), IntToString(s.totalQuestionsAnswered);
      assert f[5] == c && f[6] == q && f[7] == WIN_RATE_FIELD;
      assert ParseInt(f[5]) == Some(s.totalCorrectAnswers) && ParseInt(f[6]) == Some(s.totalQuestionsAnswered);
      assert ParseInt(WIN_RATE_FIELD) == Some(0) by { ParseIntOfIntToString(0); }
    }
    FieldsLoadAs(kind, key, s, f);
  }

  lemma FieldsFree(kind: StoreKind, key: string, s: PlayerStats, d: char)
    requires d == '|' || d == '\n'
    requires Free(key, d) && Free(s.gender, d) && (kind == HeaderStore ==> s.playerName == key)
    ensures AllFree(Fields(kind, key, s), d)
  {
    var f := Fields(kind, key, s);
    forall k | 0 <= k < |f| ensures Free(f[k], d) {
      if k == 0 {
      } else if k == 1 {
      } else if k == 2 {
        IntToStringFree(s.gamesPlayed, d);
      } else if k == 3 {
        IntToStringFree(s.totalWinnings, d);
      } else if k == 4 {
        IntToStringFree(s.maxLevel, d);
      } else if k == 5 {
        IntToStringFree(s.totalCorrectAnswers, d);
      } else if k == 6 {
        IntToStringFree(s.totalQuestionsAnswered, d);
      }
    }
  }

  /** The step of ProfileLineLoads that needs only the parse facts about the number fields, not how they are written. */
  lemma FieldsLoadAs(kind: StoreKind, key: string, s: PlayerStats, f: seq<string>)
    requires s.playerName == key
    requires kind == RootStore ==> s.totalCorrectAnswers == 0 && s.totalQuestionsAnswered == 0
    requires |f| == (if kind == RootStore then 5 else 8)
    requires AllFree(f, '|') && AllFree(f, '\n') && f[|f| - 1] != []
    requires f[0] == key && f[1] == s.gender
    requires ParseInt(f[2]) == Some(s.gamesPlayed) && ParseInt(f[3]) == Some(s.totalWinnings)
    requires ParseInt(f[4]) == Some(s.maxLevel)
    requires kind == HeaderStore ==>
      ParseInt(f[5]) == Some(s.totalCorrectAnswers) && ParseInt(f[6]) == Some(s.totalQuestionsAnswered)
      && ParseInt(f[7]).Some?
    ensures Free(Join(f, '|'), '\n') && LineLoadsAs(kind, Join(f, '|'), key, s)
  {
    FieldsLoad(f);
  }

  /** Fields without `|` or newline, the last not empty, make a non-empty line free of newlines that splits back into them. */
  lemma FieldsLoad(f: seq<string>)
    requires |f| >= 2 && AllFree(f, '|') && AllFree(f, '\n') && f[|f| - 1] != []
    ensures Tokens(Join(f, '|'), '|') == f && Free(Join(f, '|'), '\n') && Join(f, '|') != []
  {
    TokensOfJoin(f, '|');
    JoinFree(f, '|', '\n');
  }

  /** The five numbers of a profile are read back exactly, and the maximum level is written as a non-empty field. */
  lemma NumberFields(s: PlayerStats)
    ensures IntToString(s.maxLevel) != []
    ensures ParseInt(IntToString(s.gamesPlayed)) == Some(s.gamesPlayed)
    ensures ParseInt(IntToString(s.totalWinnings)) == Some(s.totalWinnings)
    ensures ParseInt(IntToString(s.maxLevel)) == Some(s.maxLevel)
    ensures ParseInt(IntToString(s.totalCorrectAnswers)) == Some(s.totalCorrectAnswers)
    ensures ParseInt(IntToString(s.totalQuestionsAnswered)) == Some(s.totalQuestionsAnswered)
  {
    IntToStringFree(s.maxLevel, '|');
    ParseIntOfIntToString(s.gamesPlayed);
    ParseIntOfIntToString(s.totalWinnings);
    ParseIntOfIntToString(s.maxLevel);
    ParseIntOfIntToString(s.totalCorrectAnswers);
    ParseIntOfIntToString(s.totalQuestionsAnswered);
  }

  /**
   * Loading what `saveProfiles` wrote, into an empty store, gives back the
   * same profiles, whatever order the map was iterated in, as long as no
   * name or gender contains `|` or a newline.
   */
  lemma SaveLoadRoundTrip(kind: StoreKind, profiles: map<string, PlayerStats>, order: seq<string>)
    requires Consistent(kind, profiles) && Storable(profiles) && Lists(profiles, order)
    ensures LinesOk(kind, Tokens(SaveText(kind, profiles, order), '\n'))
    ensures LoadedProfiles(kind, map[], Tokens(SaveText(kind, profiles, order), '\n')) == profiles
  {
    assert forall i :: 0 <= i < |order| ==> order[i] in profiles;
    var lines := ProfileLines(kind, profiles, order);
    var vals := seq(|order|, i requires 0 <= i < |order| => profiles[order[i]]);
    SavedLinesLoad(kind, profiles, order, vals);
    TokensOfUnlines(lines);
    LoadsAsOk(kind, lines, order, vals);
    LoadAll(kind, map[], lines, order, vals);
    PutAllRebuilds(profiles, order, vals);
    SameMaps(PutAll(map[], order, vals), profiles);
  }

  /** Each saved line is free of newlines and loads back as its profile. */
  lemma SavedLinesLoad(kind: StoreKind, profiles: map<string, PlayerStats>, order: seq<string>, vals: seq<PlayerStats>)
    requires Consistent(kind, profiles) && Storable(profiles)
    requires |vals| == |order| && forall i :: 0 <= i < |order| ==> order[i] in profiles && vals[i] == profiles[order[i]]
    ensures AllFree(ProfileLines(kind, profiles, order), '\n')
    ensures forall i :: 0 <= i < |order| ==> LineLoadsAs(kind, ProfileLines(kind, profiles, order)[i], order[i], vals[i])
  {
    var lines := ProfileLines(kind, profiles, order);
    forall i | 0 <= i < |order|
      ensures Free(lines[i], '\n') && LineLoadsAs(kind, lines[i], order[i], vals[i])
    {
      ProfileLineLoads(kind, order[i], profiles[order[i]]);
    }
  }

  lemma SameMaps(a: map<string, PlayerStats>, b: map<string, PlayerStats>)
    requires a.Keys == b.Keys && forall k :: k in a ==> a[k] == b[k]
    ensures a == b
  {
  }

  // ---------------------------------------------------------------------
  // The store.

  class ProfileManager {
    const kind: StoreKind
    var profiles: map<string, PlayerStats>

    ghost predicate Valid()
      reads this
    {
      Consistent(kind, profiles)
    }

    /** The constructor runs `loadProfiles` on the file's contents (None: it cannot be opened). */
    constructor (kind: StoreKind, file: Option<string>)
      requires file.Some? ==> LinesOk(kind, Tokens(file.value, '\n'))
      ensures Valid() && this.kind == kind
      ensures file.None? ==> profiles == map[]
      ensures file.Some? ==> profiles == LoadedProfiles(kind, map[], Tokens(file.value, '\n'))
    {
      this.kind := kind;
      profiles := map[];
      new;
      LoadProfiles(file);
    }

    /** Reads every kept line into the map, overwriting profiles with the same name. */
    method LoadProfiles(file: Option<string>)
      requires Valid()
      requires file.Some? ==> LinesOk(kind, Tokens(file.value, '\n'))
      modifies this`profiles
      ensures Valid()
      ensures file.None? ==> profiles == old(profiles)
      ensures file.Some? ==> profiles == LoadedProfiles(kind, old(profiles), Tokens(file.value, '\n'))
    {
      if file.None? {
        return;
      }
      var lines := ReadTokens(file.value, '\n');
      ghost var m0 := profiles;
      var i := 0;
      while i < |lines|
        invariant 0 <= i <= |lines|
        invariant LinesOk(kind, lines[..i])
        invariant profiles == LoadedProfiles(kind, m0, lines[..i])
      {
        LoadedStep(kind, m0, lines, i);
        ReadLine(lines[i]);
        i := i + 1;
      }
      assert lines[..|lines|] == lines;
      LoadedConsistent(kind, m0, lines);
    }

    /** The body of the loading loop for one line. */
    method ReadLine(line: string)
      requires LineOk(kind, line)
      modifies this`profiles
      ensures profiles == LoadLine(kind, old(profiles), line)
    {
      if line != [] {
        var tokens := ReadTokens(line, '|');
        if Accepted(kind, tokens) {
          profiles := profiles[tokens[0] := ParseStats(kind, tokens)];
        }
      }
    }

    /** Creates a zeroed profile only when the name is absent; returns the stored profile. */
    method GetOrCreateProfile(name: string, gender: string) returns (stats: PlayerStats)
      requires Valid()
      modifies this`profiles
      ensures Valid()
      ensures name in old(profiles) ==> profiles == old(profiles) && stats == old(profiles)[name]
      ensures name !in old(profiles) ==> profiles == old(profiles)[name := NewStats(name, gender)] && stats == NewStats(name, gender)
      ensures name in profiles && stats == profiles[name]
    {
      if name !in profiles {
        profiles := profiles[name := NewStats(name, gender)];
      }
      stats := profiles[name];
    }

    /** Adds a finished game to a known name's profile; an unknown name is ignored. */
    method UpdatePlayerStats(name: string, winnings: int, level: int, questionsAnswered: int)
      requires Valid()
      modifies this`profiles
      ensures Valid()
      ensures profiles == AfterGame(kind, old(profiles), name, winnings, level, questionsAnswered)
    {
      if name in profiles {
        profiles := profiles[name := Recorded(kind, profiles[name], winnings, level, questionsAnswered)];
      }
    }

    predicate PlayerExists(name: string)
      reads this
    {
      name in profiles
    }

    /** The header store's `getTotalPlayers`. */
    function GetTotalPlayers(): nat
      reads this
    {
      |profiles|
    }

    /** Reads only: the file written when the map iterates in `order`. */
    method SaveProfiles(order: seq<string>) returns (text: string)
      requires forall i :: 0 <= i < |order| ==> order[i] in profiles
      ensures text == SaveText(kind, profiles, order)
    {
      text := "";
      var i := 0;
      while i < |order|
        invariant 0 <= i <= |order|
        invariant text + SaveText(kind, profiles, order[i..]) == SaveText(kind, profiles, order)
      {
        assert order[i..][1..] == order[i + 1..];
        text := text + ProfileLine(kind, order[i], profiles[order[i]]) + "\n";
        i := i + 1;
      }
      assert order[|order|..] == [];
    }
  }

  /** After a lookup-or-create and an update, the named profile holds the new game on top of what it had (or of a zeroed profile). */
  lemma CreateThenUpdate(kind: StoreKind, m: map<string, PlayerStats>, name: string, gender: string, g: Game)
    ensures var m1 := if name in m then m else m[name := NewStats(name, gender)];
      var m2 := m1[name := Recorded(kind, m1[name], g.winnings, g.level, g.questionsAnswered)];
      && m2.Keys == m.Keys + {name}
      && m2[name].gamesPlayed == (if name in m then m[name].gamesPlayed else 0) + 1
      && (name in m ==> m2[name].gender == m[name].gender)
      && (name !in m ==> m2[name].gender == gender)
      && forall k :: k in m && k != name ==> m2[k] == m[k]
  {
  }
}
