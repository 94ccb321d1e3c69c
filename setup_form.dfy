/**
 * Text entry on the raylib player-setup screen: the bounded,
 * NUL-terminated input buffer that `handleTextInput` fills from the
 * keyboard queue, and the name and gender boxes of `drawAndHandlePlayerSetup`.
 *
 * The keyboard is a parameter: `key` is the first character code of the
 * frame, `queue` the codes later calls to `GetCharPressed` return (0 once
 * it is empty), and `backspace` / `enter` whether those keys went down in
 * this frame. The hit test of the mouse against the two boxes (float
 * rectangles) is the parameter `hitBox`.
 */
module SetupForms {
  import opened Wrappers
  import opened Text

  const MAX_NAME_LENGTH := 16
  const NAME_BUFFER_SIZE := 17
  const GENDER_BUFFER_SIZE := 3

  /** The key codes the text boxes accept: printable ASCII from space to '}'. */
  predicate Printable(k: int) { 32 <= k <= 125 }

  predicate PrintableText(s: string)
  {
    forall i :: 0 <= i < |s| ==> Printable(s[i] as int)
  }

  // ---------------------------------------------------------------------
  // The text a key stream produces.

  /**
   * The text after the polling loop: each code up to the first
   * non-positive one is appended when it is printable and the text is
   * still shorter than `maxLength`.
   */
  function Typed(text: string, keys: seq<int>, maxLength: int): (r: string)
    ensures |r| >= |text| && r[..|text|] == text
    ensures |text| <= maxLength ==> |r| <= maxLength
    ensures forall i :: |text| <= i < |r| ==> Printable(r[i] as int)
    decreases |keys|
  {
    if keys == [] || keys[0] <= 0 then text
    else
      var t := if Printable(keys[0]) && |text| < maxLength then text + [keys[0] as char] else text;
      Typed(t, keys[1..], maxLength)
  }

  /** Backspace removes the last character when there is one. */
  function Erased(t: string, backspace: bool): (r: string)
    ensures backspace && t != [] ==> r == t[..|t| - 1]
    ensures !backspace || t == [] ==> r == t
  {
    if backspace && |t| > 0 then t[..|t| - 1] else t
  }

  // An independent description of Typed: the printable codes of the run
  // before the first non-positive code, as many as still fit.

  function Run(keys: seq<int>): (r: seq<int>)
    ensures forall i :: 0 <= i < |r| ==> r[i] > 0
  {
    if keys == [] || keys[0] <= 0 then [] else [keys[0]] + Run(keys[1..])
  }

  function Printables(keys: seq<int>): (r: string)
    ensures PrintableText(r)
  {
    if keys == [] then []
    else (if Printable(keys[0]) then [keys[0] as char] else []) + Printables(keys[1..])
  }

  function Take(s: string, n: int): string
  {
    if n <= 0 then [] else if n >= |s| then s else s[..n]
  }

  lemma TakeCons(c: char, s: string, n: int)
    requires n >= 1
    ensures Take([c] + s, n) == [c] + Take(s, n - 1)
  {
    if n - 1 < |s| && n - 1 > 0 {
      assert ([c] + s)[..n] == [c] + s[..n - 1];
    }
  }

  /** Typed appends exactly the first `maxLength - |text|` printable codes of the run. */
  lemma {:induction false} TypedTakesPrintables(text: string, keys: seq<int>, maxLength: int)
    ensures Typed(text, keys, maxLength) == text + Take(Printables(Run(keys)), maxLength - |text|)
    decreases |keys|
  {
    if keys == [] || keys[0] <= 0 {
      assert Run(keys) == [];
    } else {
      var k := keys[0];
      assert Run(keys) == [k] + Run(keys[1..]);
      assert ([k] + Run(keys[1..]))[1..] == Run(keys[1..]);
      var p := Printables(Run(keys[1..]));
      if Printable(k) {
        assert Printables(Run(keys)) == [k as char] + p;
        if |text| < maxLength {
          TypedTakesPrintables(text + [k as char], keys[1..], maxLength);
          TakeCons(k as char, p, maxLength - |text|);
        } else {
          TypedTakesPrintables(text, keys[1..], maxLength);
        }
      } else {
        assert Printables(Run(keys)) == p;
        TypedTakesPrintables(text, keys[1..], maxLength);
      }
    }
  }

  // ---------------------------------------------------------------------
  // handleTextInput.

  /**
   * The buffer after the polling loop of `handleTextInput`: the appended
   * characters follow the first `count`, a NUL follows them when there is
   * at least one, and the rest of the buffer is as it was.
   */
  ghost predicate KeysTyped(before: seq<char>, count: int, maxLength: int, keys: seq<int>,
                            after: seq<char>, c: int)
    requires 0 <= count <= |before|
  {
    var t := Typed(before[..count], keys, maxLength);
    |after| == |before| && c == |t| && c < |after| && after[..c] == t
    && after[c] == (if c > count then '\0' else before[c])
    && forall j :: c < j < |after| ==> after[j] == before[j]
  }

  /**
   * The buffer after `handleTextInput` with the box active: its first
   * `newCount` characters are the typed text with backspace applied. A NUL
   * follows them whenever anything was appended or erased; past that,
   * only the NUL written after the last appended character (when
   * backspace then removed that character) differs from the old contents.
   */
  ghost predicate InputApplied(before: seq<char>, count: int, maxLength: int, keys: seq<int>,
                               backspace: bool, after: seq<char>, newCount: int)
    requires 0 <= count <= |before|
  {
    var t := Typed(before[..count], keys, maxLength);
    var e := Erased(t, backspace);
    |after| == |before| && newCount == |e| && newCount < |after| && after[..newCount] == e
    && after[newCount] == (if |t| == count && |e| == |t| then before[count] else '\0')
    && forall j :: newCount < j < |after| ==>
         after[j] == (if j == |t| && |t| > count then '\0' else before[j])
  }

  /**
   * `handleTextInput`: nothing happens to an inactive box; otherwise every
   * printable code of the frame is appended while there is room, each
   * append followed by a NUL, and then backspace removes the last
   * character when the count is positive.
   */
  method HandleTextInput(buffer: array<char>, count: int, maxLength: int, key: int, queue: seq<int>,
                         backspace: bool, active: bool) returns (newCount: int)
    requires 0 <= count < buffer.Length && maxLength < buffer.Length
    modifies buffer
    ensures !active ==> newCount == count && buffer[..] == old(buffer[..])
    ensures active ==> InputApplied(old(buffer[..]), count, maxLength, [key] + queue, backspace, buffer[..], newCount)
  {
    if !active {
      return count;
    }
    newCount := PollKeys(buffer, count, maxLength, key, queue);
    ghost var t := buffer[..newCount];
    if backspace {
      if newCount > 0 {
        newCount := newCount - 1;
        buffer[newCount] := '\0';
        assert buffer[..newCount] == t[..|t| - 1];
      }
    }
  }

  /** The `while (key > 0)` loop of `handleTextInput`. */
  method PollKeys(buffer: array<char>, count: int, maxLength: int, key: int, queue: seq<int>) returns (c: int)
    requires 0 <= count < buffer.Length && maxLength < buffer.Length
    modifies buffer
    ensures KeysTyped(old(buffer[..]), count, maxLength, [key] + queue, buffer[..], c)
  {
    ghost var keys := [key] + queue;
    ghost var before := buffer[..];
    ghost var goal := Typed(before[..count], keys, maxLength);
    c := count;
    var k := key;
    var taken := 0;  // codes taken from the queue so far; `k` is keys[taken]
    while k > 0
      invariant 0 <= taken <= |queue| + 1 && k == (if taken < |keys| then keys[taken] else 0)
      invariant count <= c < buffer.Length
      invariant Typed(buffer[..c], keys[taken..], maxLength) == goal
      invariant buffer[c] == (if c > count then '\0' else before[c])
      invariant forall j :: c < j < buffer.Length ==> buffer[j] == before[j]
      decreases |keys| - taken
    {
      TypedStep(buffer[..c], keys, taken, maxLength);
      if 32 <= k <= 125 && c < maxLength {
        c := Append(buffer, c, k as char);
      }
      k := if taken < |queue| then queue[taken] else 0;
      taken := taken + 1;
    }
    TypedStops(buffer[..c], keys, taken, maxLength);
  }

  /** `buffer[count] = ch; count++; buffer[count] = '\0';` */
  method Append(buffer: array<char>, c: int, ch: char) returns (c': int)
    requires 0 <= c && c + 1 < buffer.Length
    modifies buffer
    ensures c' == c + 1
    ensures buffer[..c'] == old(buffer[..c]) + [ch] && buffer[c'] == '\0'
    ensures forall j :: c' < j < buffer.Length ==> buffer[j] == old(buffer[j])
  {
    buffer[c] := ch;
    c' := c + 1;
    buffer[c'] := '\0';
  }

  /** One turn of the polling loop: a positive code is consumed. */
  lemma TypedStep(text: string, keys: seq<int>, i: nat, maxLength: int)
    requires i < |keys| && keys[i] > 0
    ensures Typed(text, keys[i..], maxLength) ==
      Typed(if Printable(keys[i]) && |text| < maxLength then text + [keys[i] as char] else text, keys[i + 1..], maxLength)
  {
    assert keys[i..][1..] == keys[i + 1..];
  }

  /** The loop stops at a non-positive code or at the end of the queue. */
  lemma TypedStops(text: string, keys: seq<int>, i: nat, maxLength: int)
    requires i <= |keys| && (i == |keys| || keys[i] <= 0)
    ensures Typed(text, keys[i..], maxLength) == text
  {
  }

  /** The C string in a buffer: the characters before its first NUL. */
  function CString(s: seq<char>): string
  {
    s[..IndexOf(s, '\0')]
  }

  lemma CStringOfCount(s: seq<char>, count: nat)
    requires count < |s| && s[count] == '\0' && PrintableText(s[..count])
    ensures CString(s) == s[..count]
  {
    forall i | 0 <= i < count ensures s[i] != '\0' {
      assert s[..count][i] == s[i];
    }
    IndexOfUnique(s, '\0', count);
  }

  /** `toupper` on the letters the gender box accepts. */
  function Upper(c: char): (u: char)
    ensures 'a' <= c <= 'z' ==> u as int == c as int - 32
    ensures !('a' <= c <= 'z') ==> u == c
  {
    if 'a' <= c <= 'z' then (c as int - 32) as char else c
  }

  predicate GenderKey(key: int)
  {
    key == 'm' as int || key == 'M' as int || key == 'f' as int || key == 'F' as int
  }

  // ---------------------------------------------------------------------
  // The player-setup screen.

  /** The renderer's state for the player-setup screen. */
  class SetupForm {
    const nameBuffer: array<char>
    const genderBuffer: array<char>
    var letterCountName: int
    var letterCountGender: int
    var activeTextBox: int

    /**
     * Both buffers hold a NUL-terminated string of at most their limit:
     * the name up to 16 printable characters, the gender either empty or
     * one of "M" and "F".
     */
    ghost predicate Valid()
      reads this, nameBuffer, genderBuffer
    {
      nameBuffer.Length == NAME_BUFFER_SIZE && genderBuffer.Length == GENDER_BUFFER_SIZE
      && 0 <= letterCountName <= MAX_NAME_LENGTH && nameBuffer[letterCountName] == '\0'
      && PrintableText(nameBuffer[..letterCountName])
      && 0 <= letterCountGender <= 1 && genderBuffer[letterCountGender] == '\0'
      && (letterCountGender == 1 ==> genderBuffer[0] == 'M' || genderBuffer[0] == 'F')
    }

    /** The text the name box shows. */
    ghost function Name(): string
      reads this, nameBuffer
      requires 0 <= letterCountName <= nameBuffer.Length
    {
      nameBuffer[..letterCountName]
    }

    ghost function Gender(): string
      reads this, genderBuffer
      requires 0 <= letterCountGender <= genderBuffer.Length
    {
      genderBuffer[..letterCountGender]
    }

    /** Both buffers start zero-filled and no box is active. */
    constructor ()
      ensures Valid() && fresh(nameBuffer) && fresh(genderBuffer)
      ensures letterCountName == 0 && letterCountGender == 0 && activeTextBox == 0
      ensures nameBuffer[..] == seq(NAME_BUFFER_SIZE, _ => '\0')
      ensures genderBuffer[..] == seq(GENDER_BUFFER_SIZE, _ => '\0')
    {
      nameBuffer := new char[NAME_BUFFER_SIZE]((_) => '\0');
      genderBuffer := new char[GENDER_BUFFER_SIZE]((_) => '\0');
      letterCountName := 0;
      letterCountGender := 0;
      activeTextBox := 0;
    }

    /** The Play button of the menu empties both boxes and activates the name box. */
    method Reset()
      requires Valid()
      modifies this, nameBuffer, genderBuffer
      ensures Valid() && Name() == [] && Gender() == [] && activeTextBox == 1
      ensures nameBuffer[..] == old(nameBuffer[..])[0 := '\0']
      ensures genderBuffer[..] == old(genderBuffer[..])[0 := '\0']
    {
      nameBuffer[0] := '\0';
      genderBuffer[0] := '\0';
      letterCountName := 0;
      letterCountGender := 0;
      activeTextBox := 1;
    }

    /**
     * The input half of `drawAndHandlePlayerSetup` for one frame: a click
     * selects the box hit (0 for none), the name box edits through
     * HandleTextInput, the gender box takes one of m/M/f/F as an upper-case
     * letter when it is empty and drops it on backspace, and Enter submits
     * the two strings when neither is empty. The submitted pair is what the
     * renderer passes to the controller's `submitPlayerSetup`.
     */
    method HandleInput(mousePressed: bool, hitBox: int, key: int, queue: seq<int>,
                       backspace: bool, enter: bool) returns (submitted: Option<(string, string)>)
      requires Valid()
      modifies this, nameBuffer, genderBuffer
      ensures Valid()
      ensures SetupStepped(old(activeTextBox), old(Name()), old(Gender()), mousePressed, hitBox,
                           key, queue, backspace, enter, activeTextBox, Name(), Gender(), submitted)
      ensures var b := Selected(old(activeTextBox), mousePressed, hitBox);
        if b == 1 then InputApplied(old(nameBuffer[..]), old(letterCountName), MAX_NAME_LENGTH, [key] + queue,
                                    backspace, nameBuffer[..], letterCountName)
        else nameBuffer[..] == old(nameBuffer[..])
      ensures genderBuffer[0] == (if Gender() == [] then '\0' else Gender()[0])
      ensures genderBuffer[1] ==
        (if Selected(old(activeTextBox), mousePressed, hitBox) == 2 && old(letterCountGender) == 0 && GenderKey(key)
         then '\0' else old(genderBuffer[1]))
      ensures genderBuffer[2] == old(genderBuffer[2])
    {
      if mousePressed {
        activeTextBox := if hitBox == 1 || hitBox == 2 then hitBox else 0;
      }
      EditName(key, queue, backspace);
      EditGender(key, backspace);
      submitted := Submit(enter);
    }

    /** `handleTextInput` on the name buffer, active when the name box is selected. */
    method EditName(key: int, queue: seq<int>, backspace: bool)
      requires Valid()
      modifies `letterCountName, nameBuffer
      ensures Valid()
      ensures Name() == (if activeTextBox == 1 then Edited(old(Name()), [key] + queue, backspace) else old(Name()))
      ensures if activeTextBox == 1 then InputApplied(old(nameBuffer[..]), old(letterCountName), MAX_NAME_LENGTH,
                                                      [key] + queue, backspace, nameBuffer[..], letterCountName)
              else nameBuffer[..] == old(nameBuffer[..]) && letterCountName == old(letterCountName)
    {
      ghost var oldName := Name();
      letterCountName := HandleTextInput(nameBuffer, letterCountName, MAX_NAME_LENGTH, key, queue, backspace,
                                         activeTextBox == 1);
      if activeTextBox == 1 {
        NameStaysBounded(oldName, [key] + queue, backspace);
      }
    }

    /** The gender box: one of m/M/f/F, upper-cased, into an empty box; backspace empties it. */
    method EditGender(key: int, backspace: bool)
      requires Valid()
      modifies `letterCountGender, genderBuffer
      ensures Valid()
      ensures Gender() == (if activeTextBox == 2 then GenderEdited(old(Gender()), key, backspace) else old(Gender()))
      ensures genderBuffer[0] == (if Gender() == [] then '\0' else Gender()[0])
      ensures genderBuffer[1] ==
        (if activeTextBox == 2 && old(letterCountGender) == 0 && GenderKey(key) then '\0' else old(genderBuffer[1]))
      ensures genderBuffer[2] == old(genderBuffer[2])
    {
      if activeTextBox == 2 {
        if letterCountGender < 1 {
          if GenderKey(key) {
            genderBuffer[0] := Upper(key as char);
            genderBuffer[1] := '\0';
            letterCountGender := 1;
          }
        }
        if backspace && letterCountGender > 0 {
          genderBuffer[0] := '\0';
          letterCountGender := 0;
        }
      }
    }

    /** Enter: the two C strings are submitted and the boxes deselected when both are non-empty. */
    method Submit(enter: bool) returns (submitted: Option<(string, string)>)
      requires Valid()
      modifies `activeTextBox
      ensures if enter && Name() != [] && Gender() != [] then submitted == Some((Name(), Gender())) && activeTextBox == 0
              else submitted == None && activeTextBox == old(activeTextBox)
    {
      submitted := None;
      if enter {
        if letterCountName > 0 && letterCountGender > 0 {
          CStringOfCount(nameBuffer[..], letterCountName);
          CStringOfCount(genderBuffer[..], letterCountGender);
          var name := CString(nameBuffer[..]);
          var gender := CString(genderBuffer[..]);
          submitted := Some((name, gender));
          activeTextBox := 0;
        }
      }
    }
  }

  /** The name box's text after one frame with it active. */
  function Edited(name: string, keys: seq<int>, backspace: bool): (r: string)
    ensures |name| <= MAX_NAME_LENGTH ==> |r| <= MAX_NAME_LENGTH
  {
    Erased(Typed(name, keys, MAX_NAME_LENGTH), backspace)
  }

  /** The gender box's text after one frame with it active. */
  function GenderEdited(gender: string, key: int, backspace: bool): (r: string)
  {
    var g := if gender == [] && GenderKey(key) then [Upper(key as char)] else gender;
    if backspace && g != [] then [] else g
  }

  /** The box a frame leaves selected before Enter is considered. */
  function Selected(box: int, mousePressed: bool, hitBox: int): int
  {
    if !mousePressed then box else if hitBox == 1 || hitBox == 2 then hitBox else 0
  }

  /** One frame of the setup screen, from old box, name and gender to the new ones and what is submitted. */
  ghost predicate SetupStepped(box: int, name: string, gender: string, mousePressed: bool, hitBox: int,
                               key: int, queue: seq<int>, backspace: bool, enter: bool,
                               box': int, name': string, gender': string, submitted: Option<(string, string)>)
  {
    var b := Selected(box, mousePressed, hitBox);
    name' == (if b == 1 then Edited(name, [key] + queue, backspace) else name)
    && gender' == (if b == 2 then GenderEdited(gender, key, backspace) else gender)
    && (if enter && name' != [] && gender' != [] then submitted == Some((name', gender')) && box' == 0
        else submitted == None && box' == b)
  }

  /** The gender field only ever holds "", "M" or "F". */
  lemma GenderKeepsLetter(gender: string, key: int, backspace: bool)
    requires gender == [] || gender == "M" || gender == "F"
    ensures var g := GenderEdited(gender, key, backspace); g == [] || g == "M" || g == "F"
  {
  }

  /** An accepted gender key is stored upper-cased: m and M give "M", f and F give "F". */
  lemma GenderUppercased(key: int)
    requires GenderKey(key)
    ensures GenderEdited([], key, false) == (if key == 'm' as int || key == 'M' as int then "M" else "F")
  {
  }

  /** A filled gender box ignores further letters; only backspace clears it. */
  lemma GenderHoldsOne(gender: string, key: int, backspace: bool)
    requires gender != []
    ensures GenderEdited(gender, key, backspace) == (if backspace then [] else gender)
  {
  }

  /** Enter submits exactly when both boxes are non-empty, and then the submitted pair is their contents. */
  lemma SubmitOnlyWhenFilled(box: int, name: string, gender: string, mousePressed: bool, hitBox: int,
                             key: int, queue: seq<int>, backspace: bool, enter: bool,
                             box': int, name': string, gender': string, submitted: Option<(string, string)>)
    requires SetupStepped(box, name, gender, mousePressed, hitBox, key, queue, backspace, enter,
                          box', name', gender', submitted)
    ensures submitted.Some? <==> enter && name' != [] && gender' != []
    ensures submitted.Some? ==> submitted.value.0 != [] && submitted.value.1 != []
  {
  }

  /** The name never grows past sixteen characters and only printable characters enter it. */
  lemma NameStaysBounded(name: string, keys: seq<int>, backspace: bool)
    requires |name| <= MAX_NAME_LENGTH && PrintableText(name)
    ensures var r := Edited(name, keys, backspace); |r| <= MAX_NAME_LENGTH && PrintableText(r)
  {
    var t := Typed(name, keys, MAX_NAME_LENGTH);
    forall i | 0 <= i < |t| ensures Printable(t[i] as int) {
      if i < |name| {
        assert t[..|name|][i] == t[i];
      }
    }
    var r := Edited(name, keys, backspace);
    if backspace && t != [] {
      forall i | 0 <= i < |r| ensures Printable(r[i] as int) {
        assert r[i] == t[i];
      }
    }
  }

  /** A full name box ignores typing; only backspace changes it. */
  lemma FullNameIgnoresKeys(name: string, keys: seq<int>)
    requires |name| >= MAX_NAME_LENGTH
    ensures Edited(name, keys, false) == name
  {
    TypedTakesPrintables(name, keys, MAX_NAME_LENGTH);
    assert name + [] == name;
  }
}
