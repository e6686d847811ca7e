/** The key-driven screens of the flashcard application (ai-main.py): the menu,
    the add screen, the explore screen with its filtered list, and the edit
    screen with its cursor. The phrase database `DB.data` is an insertion-ordered
    dictionary from phrase to record; saving it to disk is an event counted by
    `saves`, and what the handlers show on screen is an event list `ui`. */
module Flashcards {
  import opened Wrappers
  import opened PyStr

  // ---------------------------------------------------------------------------
  // Keys

  /** `Key.Special`. */
  const PRINTABLE := 0
  const ENTER := 1
  const BACKSPACE := 2
  const TAB := 3
  const ESCAPE := 4
  const SHIFT := 5
  const CTRL := 6
  const HOME := 7
  const END := 8
  const DELETE := 9
  const ARROW_UP := 10
  const ARROW_DOWN := 11
  const ARROW_LEFT := 12
  const ARROW_RIGHT := 13

  /** `Key`: the text of a printable key, or the code of a special one. */
  datatype Key = Key(printable: string, special: int)

  /** `Key(str)`: a printable key has the code PRINTABLE. */
  function TextKey(s: string): (k: Key)
    ensures k.printable == s && k.special == PRINTABLE
  {
    Key(s, PRINTABLE)
  }

  /** `Key(int)`: a special key has no text. */
  function SpecialKey(code: int): (k: Key)
    ensures k.printable == "" && k.special == code
  {
    Key("", code)
  }

  /** `key == s` for a string `s`: the texts are compared. */
  predicate IsText(k: Key, s: string)
  {
    k.printable == s
  }

  /** `key == n` for an integer `n`: the codes are compared. */
  predicate IsSpecial(k: Key, code: int)
  {
    k.special == code
  }

  /** A printable key equals its own text and the code PRINTABLE; a special key
      equals its own code and the empty string. */
  lemma KeyEquality(s: string, t: string, code: int, n: int)
    ensures IsText(TextKey(s), t) <==> s == t
    ensures IsSpecial(TextKey(s), n) <==> n == PRINTABLE
    ensures IsSpecial(SpecialKey(code), n) <==> code == n
    ensures IsText(SpecialKey(code), t) <==> t == ""
  {
  }

  // ---------------------------------------------------------------------------
  // The phrase database: an insertion-ordered dictionary

  /** `Record`: a translation and a rate, whose arithmetic is not modelled. */
  datatype Record = Record(translation: string, rate: real)

  /** The rate a new phrase gets. */
  const DefaultRate: real := 1.0

  /** A dictionary: its phrases in insertion order, and what each holds. */
  datatype Dict = Dict(order: seq<string>, values: map<string, Record>)

  /** No phrase is listed twice. */
  ghost predicate Unique(s: seq<string>)
  {
    forall i, j :: 0 <= i < j < |s| ==> s[i] != s[j]
  }

  /** The order lists each phrase of the dictionary once. */
  ghost predicate WellFormed(d: Dict)
  {
    Unique(d.order) && forall k :: k in d.values <==> k in d.order
  }

  /** `d[k] = v`: a present phrase keeps its place, a new one goes last. */
  function Put(d: Dict, k: string, v: Record): (r: Dict)
    ensures r.values == d.values[k := v]
    ensures k in d.values ==> r.order == d.order
    ensures k !in d.values ==> r.order == d.order + [k]
  {
    Dict(if k in d.values then d.order else d.order + [k], d.values[k := v])
  }

  /** `s` without `k`, the rest in order. */
  function Without(s: seq<string>, k: string): (r: seq<string>)
    ensures forall x :: x in r <==> x in s && x != k
    ensures |r| <= |s|
  {
    if s == [] then []
    else if s[0] == k then Without(s[1..], k)
    else [s[0]] + Without(s[1..], k)
  }

  /** `del d[k]`, None where Python raises KeyError. */
  function Del(d: Dict, k: string): (r: Option<Dict>)
    ensures r.Some? <==> k in d.values
    ensures r.Some? ==> r.value.values == d.values - {k} && r.value.order == Without(d.order, k)
  {
    if k in d.values then Some(Dict(Without(d.order, k), d.values - {k})) else None
  }

  /** `d.items()`: the pairs in insertion order. */
  function Items(d: Dict): (r: seq<(string, Record)>)
    requires WellFormed(d)
    ensures |r| == |d.order|
    ensures forall i :: 0 <= i < |r| ==> r[i] == (d.order[i], d.values[d.order[i]])
  {
    seq(|d.order|, i requires 0 <= i < |d.order| => (d.order[i], d.values[d.order[i]]))
  }

  /** The tail of a list without repeats has none, and lacks the head. */
  lemma UniqueTail(s: seq<string>)
    requires Unique(s) && s != []
    ensures Unique(s[1..]) && s[0] !in s[1..]
  {
    forall a, b | 0 <= a < b < |s[1..]| ensures s[1..][a] != s[1..][b] {
      assert s[1..][a] == s[a + 1] && s[1..][b] == s[b + 1];
    }
    forall j | 0 <= j < |s[1..]| ensures s[1..][j] != s[0] {
      assert s[1..][j] == s[j + 1];
    }
  }

  /** Putting a new name in front of a list without repeats keeps it without
      repeats. */
  lemma UniqueCons(x: string, t: seq<string>)
    requires Unique(t) && x !in t
    ensures Unique([x] + t)
  {
    var r := [x] + t;
    forall i, j | 0 <= i < j < |r| ensures r[i] != r[j] {
      assert r[j] == t[j - 1] && r[j] in t;
      if i > 0 {
        assert r[i] == t[i - 1];
      }
    }
  }

  /** Dropping a name from a list without repeats leaves one without repeats,
      and dropping an absent name changes nothing. */
  lemma {:induction false} WithoutUnique(s: seq<string>, k: string)
    requires Unique(s)
    ensures Unique(Without(s, k))
    ensures k !in s ==> Without(s, k) == s
  {
    if s != [] {
      UniqueTail(s);
      WithoutUnique(s[1..], k);
      if s[0] != k {
        UniqueCons(s[0], Without(s[1..], k));
        assert s == [s[0]] + s[1..];
      }
    }
  }

  /** Dropping a name keeps the others' relative order and repeats none: the
      name is taken out of its one place, and the rest stays as it was. */
  lemma WithoutKeepsOrder(s: seq<string>, k: string)
    requires Unique(s)
    ensures Unique(Without(s, k))
    ensures k !in s ==> Without(s, k) == s
    ensures k in s ==> exists i :: 0 <= i < |s| && s[i] == k && Without(s, k) == s[..i] + s[i + 1..]
  {
    WithoutUnique(s, k);
    if k in s {
      var i :| 0 <= i < |s| && s[i] == k;
      WithoutAt(s, k, i);
    }
  }

  /** The one place of a name in a list without repeats is where dropping it
      cuts the list. */
  lemma {:induction false} WithoutAt(s: seq<string>, k: string, i: nat)
    requires Unique(s) && i < |s| && s[i] == k
    ensures Without(s, k) == s[..i] + s[i + 1..]
  {
    UniqueTail(s);
    if i == 0 {
      WithoutUnique(s[1..], k);
    } else {
      WithoutAt(s[1..], k, i - 1);
      assert s[0] != k;
      assert s[..i] == [s[0]] + s[1..][..i - 1];
      assert s[i + 1..] == s[1..][i..];
    }
  }

  /** Writing keeps the dictionary well formed; the new phrase holds the new
      record, and every other phrase holds what it held, in the same place. */
  lemma PutWellFormed(d: Dict, k: string, v: Record)
    requires WellFormed(d)
    ensures WellFormed(Put(d, k, v))
    ensures Put(d, k, v).values[k] == v
    ensures forall j :: j != k && j in d.values ==> j in Put(d, k, v).values && Put(d, k, v).values[j] == d.values[j]
  {
  }

  /** Deleting a present phrase keeps the dictionary well formed and removes
      that phrase only. */
  lemma DelWellFormed(d: Dict, k: string)
    requires WellFormed(d) && k in d.values
    ensures WellFormed(Del(d, k).value)
    ensures k !in Del(d, k).value.values
    ensures forall j :: j != k && j in d.values ==> j in Del(d, k).value.values && Del(d, k).value.values[j] == d.values[j]
  {
    WithoutKeepsOrder(d.order, k);
  }

  // ---------------------------------------------------------------------------
  // Filtering the explore list

  /** An entry is found when the lower-cased prompt occurs in its phrase or in
      its translation, both lower-cased. */
  predicate Hit(e: (string, Record), q: string)
    ensures q == "" ==> Hit(e, q)
  {
    Contains(Lower(e.0), q) || Contains(Lower(e.1.translation), q)
  }

  /** The entries found, in dictionary order. */
  function Matching(items: seq<(string, Record)>, q: string): (r: seq<(string, Record)>)
    ensures forall e :: e in r <==> e in items && Hit(e, q)
    ensures |r| <= |items|
  {
    if items == [] then []
    else if Hit(items[0], q) then [items[0]] + Matching(items[1..], q)
    else Matching(items[1..], q)
  }

  /** The list computed by `update_filtered`: nothing for an empty prompt,
      otherwise the first ten entries found. */
  function Filtered(d: Dict, prompt: string): (r: seq<(string, Record)>)
    requires WellFormed(d)
    ensures prompt == "" ==> r == []
    ensures |r| <= 10
    ensures forall e :: e in r ==> e in Items(d) && Hit(e, Lower(prompt))
  {
    var q := Lower(prompt);
    if q == "" then [] else Slice(Matching(Items(d), q), 0, 10)
  }

  /** `update_filtered` finds at most ten entries, each of them an entry of the
      dictionary that matches, and they are the first matches in dictionary
      order; it finds ten whenever there are ten, and nothing for an empty
      prompt. */
  lemma FilteredSpec(d: Dict, prompt: string)
    requires WellFormed(d)
    ensures prompt == "" ==> Filtered(d, prompt) == []
    ensures |Filtered(d, prompt)| <= 10
    ensures forall e :: e in Filtered(d, prompt) ==>
      e.0 in d.values && d.values[e.0] == e.1 && Hit(e, Lower(prompt))
    ensures prompt != "" ==> var m := Matching(Items(d), Lower(prompt));
      Filtered(d, prompt) == m[..if |m| < 10 then |m| else 10]
  {
    var items := Items(d);
    forall e | e in items
      ensures e.0 in d.values && d.values[e.0] == e.1
    {
      var i :| 0 <= i < |items| && items[i] == e;
    }
  }

  // ---------------------------------------------------------------------------
  // The application state

  /** `State.Enum`. */
  datatype Screen = Menu | Scroll | Add | Explore | Quit | Edit

  /** `state_parameter` on each screen: None, the add buffer, the explore
      search, or the edit buffer with its cursor. */
  datatype Param =
    | NoParam
    | Buffer(text: string)
    | Search(prompt: string, filtered: seq<(string, Record)>, selection: int)
    | Editing(original: (string, Record), edited: string, cursor: int)

  /** What `show_message` puts in the footer. */
  datatype Footer = DbSize(count: nat) | UnknownCommand(key: string) | Added(phrase: string) | FormatHint

  /** What the handlers do to the screen besides the state: a clear or a
      footer message. */
  datatype UiEvent = Cleared | Message(footer: Footer)

  /** Everything the handlers read or change. */
  datatype AppState = AppState(state: Screen, param: Param, running: bool, db: Dict, saves: nat, ui: seq<UiEvent>)

  /** The parameter the explore screen starts with. */
  const FreshSearch: Param := Search("", [], -1)

  /** The search is consistent with the dictionary: the selection is -1 or an
      index of the list, and every listed phrase is in the dictionary. */
  ghost predicate SearchOk(p: Param, d: Dict)
  {
    p.Search? && -1 <= p.selection < |p.filtered| && forall e :: e in p.filtered ==> e.0 in d.values
  }

  /** What holds between key presses. The explore screen may hold the edit
      parameter, which ESC on the edit screen leaves there, and the edit cursor
      may pass the end of the text. */
  ghost predicate Inv(s: AppState)
  {
    WellFormed(s.db) &&
    (s.state == Menu ==> s.param.NoParam?) &&
    (s.state == Add ==> s.param.Buffer?) &&
    (s.state == Explore ==> SearchOk(s.param, s.db) || s.param.Editing?) &&
    (s.state == Edit ==> s.param.Editing? && 0 <= s.param.cursor && s.param.original.0 in s.db.values)
  }

  /** The state the application starts in. */
  lemma InitialInv(d: Dict)
    requires WellFormed(d)
    ensures Inv(AppState(Menu, NoParam, true, d, 0, []))
  {
  }

  // ---------------------------------------------------------------------------
  // The handlers as transitions

  /** `handle_menu`. */
  function MenuStep(s: AppState, k: Key): (r: AppState)
    ensures r.db == s.db && r.saves == s.saves
    ensures IsText(k, "a") ==> r.state == Add && r.param == Buffer("")
    ensures IsText(k, "e") ==> r.state == Explore && r.param == FreshSearch
    ensures IsSpecial(k, ENTER) && !IsText(k, "a") && !IsText(k, "e") ==> r.state == Scroll && r.param == NoParam
    ensures !IsText(k, "q") ==> r.running == s.running
    ensures IsText(k, "q") && !IsSpecial(k, ENTER) && !IsSpecial(k, ESCAPE) ==> !r.running
    ensures !IsText(k, "a") && !IsText(k, "e") && !IsSpecial(k, ENTER) ==> r.state == s.state && r.param == s.param
  {
    if IsText(k, "a") then s.(state := Add, param := Buffer(""))
    else if IsText(k, "e") then s.(state := Explore, param := FreshSearch)
    else if IsSpecial(k, ENTER) then s.(state := Scroll, param := NoParam)
    else if IsText(k, "r") then s.(ui := s.ui + [Cleared])
    else if IsSpecial(k, ESCAPE) then s.(ui := s.ui + [Message(DbSize(|s.db.order|))])
    else if IsText(k, "q") then s.(running := false)
    else s.(ui := s.ui + [Message(UnknownCommand(k.printable))])
  }

  /** `handle_add`, on the add buffer. */
  function AddStep(s: AppState, k: Key): (r: AppState)
    requires s.state == Add && s.param.Buffer?
    ensures r.db != s.db || r.saves != s.saves ==> IsSpecial(k, ENTER)
    ensures r.state == s.state ==> r.param.Buffer?
    ensures r.state != s.state ==> r.state == Menu && r.param == NoParam
    ensures !IsSpecial(k, ESCAPE) && !IsSpecial(k, ENTER) && !IsSpecial(k, BACKSPACE) ==>
      r.param == Buffer(s.param.text + k.printable)
  {
    if IsSpecial(k, ESCAPE) then s.(state := Menu, param := NoParam)
    else if IsSpecial(k, ENTER) then
      match SplitOnce(s.param.text, " - ")
      case Some((phrase, translation)) =>
        s.(db := Put(s.db, phrase, Record(translation, DefaultRate)), saves := s.saves + 1,
           ui := s.ui + [Message(Added(phrase))], state := Menu, param := NoParam)
      case None => s.(ui := s.ui + [Message(FormatHint)])
    else if IsSpecial(k, BACKSPACE) then s.(param := Buffer(DropLast(s.param.text)))
    else s.(param := Buffer(s.param.text + k.printable))
  }

  /** `update_filtered` with the prompt `prompt`: the selection is -1 on an
      empty list and 0 otherwise. */
  function Refiltered(s: AppState, prompt: string): (r: AppState)
    requires WellFormed(s.db)
    ensures r.param.Search? && r.param.prompt == prompt
    ensures r.param.selection == -1 <==> r.param.filtered == []
    ensures r.param.selection == -1 || r.param.selection == 0
    ensures r == s.(param := r.param)
  {
    var f := Filtered(s.db, prompt);
    s.(param := Search(prompt, f, if f == [] then -1 else 0))
  }

  /** `handle_explore`. On the explore search it never fails when the search is
      consistent with the dictionary; on the edit parameter, which carries no
      `selection` or `prompt`, every key but ESC and TAB raises KeyError. */
  function ExploreStep(s: AppState, k: Key): (r: Result<AppState>)
    requires WellFormed(s.db) && s.state == Explore
    requires s.param.Search? || s.param.Editing?
    requires s.param.Search? ==> -1 <= s.param.selection < |s.param.filtered|
    ensures s.param.Editing? ==> (r.Err? <==> !IsSpecial(k, ESCAPE) && !IsSpecial(k, TAB))
    ensures r.Ok? && (r.value.db != s.db || r.value.saves != s.saves) ==>
      IsText(k, "d") && s.param.Search? && s.param.selection >= 0
    ensures r.Ok? && r.value.state == Edit ==>
      IsText(k, "e") && s.param.Search? && r.value.param.Editing? &&
      r.value.param.original in s.param.filtered && r.value.param.cursor == |r.value.param.edited|
  {
    var p := s.param;
    if IsSpecial(k, ESCAPE) then Ok(s.(state := Menu, param := NoParam))
    else if !p.Search? then (if IsSpecial(k, TAB) then Ok(s) else Err(KeyError))
    else if IsSpecial(k, ARROW_UP) && p.selection < |p.filtered| - 1 then Ok(s.(param := p.(selection := p.selection + 1)))
    else if IsSpecial(k, ARROW_DOWN) && p.selection > -1 then Ok(s.(param := p.(selection := p.selection - 1)))
    else if IsSpecial(k, TAB) then Ok(s)
    else if IsSpecial(k, BACKSPACE) then Ok(Refiltered(s, DropLast(p.prompt)))
    else if p.selection == -1 then Ok(Refiltered(s, p.prompt + k.printable))
    else if IsText(k, "d") then
      var selected := p.filtered[p.selection];
      match Del(s.db, selected.0)
      case None => Err(KeyError)
      case Some(d) =>
        DelWellFormed(s.db, selected.0);
        Ok(Refiltered(s.(db := d, saves := s.saves + 1), p.prompt))
    else if IsText(k, "e") then
      var selected := p.filtered[p.selection];
      var text := selected.0 + " - " + selected.1.translation;
      Ok(s.(state := Edit, param := Editing(selected, text, |text|)))
    else Ok(s)
  }

  /** ESC on the edit screen: the screen goes back to explore, and the
      parameter stays the edit one. */
  function EditEscapeAsWritten(s: AppState): (r: AppState)
    ensures r.state == Explore && r.param == s.param && r.db == s.db
  {
    s.(state := Explore)
  }

  /** A key typed on the edit screen: its text goes in at the cursor, and the
      cursor moves by one, also for a special key, whose text is empty, and for
      a key whose text is longer. A cursor past the end appends. */
  function InsertAsWritten(edited: string, cursor: int, text: string): (r: (string, int))
    ensures 0 <= cursor <= |edited| ==> r.0 == edited[..cursor] + text + edited[cursor..]
    ensures |edited| <= cursor ==> r.0 == edited + text
    ensures r.1 == cursor + 1
  {
    (Slice(edited, 0, cursor) + text + Slice(edited, cursor, |edited|), cursor + 1)
  }

  /** ENTER on the edit screen: ValueError when the text has no " - ", and
      KeyError when the phrase changed and the original one is gone. */
  function EditSave(s: AppState): (r: Result<AppState>)
    requires WellFormed(s.db) && s.state == Edit && s.param.Editing?
    ensures r.Err? <==>
      !Contains(s.param.edited, " - ") ||
      (SplitOnce(s.param.edited, " - ").value.0 != s.param.original.0 && s.param.original.0 !in s.db.values)
    ensures r.Ok? ==> r.value.state == Explore && r.value.param == FreshSearch && r.value.saves == s.saves + 1
  {
    var p := s.param;
    match SplitOnce(p.edited, " - ")
    case None => Err(ValueError)
    case Some((phrase, translation)) =>
      var kept := if phrase != p.original.0 then Del(s.db, p.original.0) else Some(s.db);
      if kept.None? then Err(KeyError)
      else
        Ok(s.(db := Put(kept.value, phrase, Record(translation, p.original.1.rate)), saves := s.saves + 1,
              state := Explore, param := FreshSearch))
  }

  /** `handle_edit`. Only ENTER raises or touches the database; the screen
      stays the edit one unless ESC or ENTER is pressed. */
  function EditStep(s: AppState, k: Key): (r: Result<AppState>)
    requires WellFormed(s.db) && s.state == Edit && s.param.Editing?
    ensures r.Err? ==> IsSpecial(k, ENTER)
    ensures r.Ok? && (r.value.db != s.db || r.value.saves != s.saves) ==> IsSpecial(k, ENTER)
    ensures r.Ok? && r.value.state != s.state ==> IsSpecial(k, ESCAPE) || IsSpecial(k, ENTER)
  {
    var p := s.param;
    if IsSpecial(k, ESCAPE) then Ok(EditEscapeAsWritten(s))
    else if IsSpecial(k, ENTER) then EditSave(s)
    else if IsSpecial(k, BACKSPACE) then
      if p.cursor > 0 then
        Ok(s.(param := p.(edited := Slice(p.edited, 0, p.cursor - 1) + Slice(p.edited, p.cursor, |p.edited|), cursor := p.cursor - 1)))
      else Ok(s)
    else if IsSpecial(k, ARROW_LEFT) then Ok(s.(param := p.(cursor := if p.cursor - 1 < 0 then 0 else p.cursor - 1)))
    else if IsSpecial(k, ARROW_RIGHT) then Ok(s.(param := p.(cursor := if |p.edited| < p.cursor + 1 then |p.edited| else p.cursor + 1)))
    else
      var ins := InsertAsWritten(p.edited, p.cursor, k.printable);
      Ok(s.(param := p.(edited := ins.0, cursor := ins.1)))
  }

  // ---------------------------------------------------------------------------
  // The edit screen corrected

  /** Corrected ESC on the edit screen: back to the explore screen with a fresh
      search, as ENTER does. */
  function EditEscape(s: AppState): (r: AppState)
    ensures r.state == Explore && r.param == FreshSearch && r.db == s.db
  {
    s.(state := Explore, param := FreshSearch)
  }

  /** Corrected typing: the text goes in at the cursor, and the cursor moves
      past it. */
  function Insert(edited: string, cursor: int, text: string): (r: (string, int))
    requires 0 <= cursor <= |edited|
    ensures r.0 == edited[..cursor] + text + edited[cursor..]
    ensures r.1 == cursor + |text| && 0 <= r.1 <= |r.0|
  {
    (Slice(edited, 0, cursor) + text + Slice(edited, cursor, |edited|), cursor + |text|)
  }

  /** `handle_edit` with the corrected ESC and typing; ENTER, BACKSPACE and the
      arrows are those of `EditStep`. */
  function EditStepFixed(s: AppState, k: Key): (r: Result<AppState>)
    requires WellFormed(s.db) && s.state == Edit && s.param.Editing?
    requires 0 <= s.param.cursor <= |s.param.edited|
    ensures r.Ok? && r.value.state == Explore ==> r.value.param == FreshSearch
  {
    var p := s.param;
    if IsSpecial(k, ESCAPE) then Ok(EditEscape(s))
    else if IsSpecial(k, ENTER) || IsSpecial(k, BACKSPACE) || IsSpecial(k, ARROW_LEFT) || IsSpecial(k, ARROW_RIGHT) then EditStep(s, k)
    else
      var ins := Insert(p.edited, p.cursor, k.printable);
      Ok(s.(param := p.(edited := ins.0, cursor := ins.1)))
  }

  // ---------------------------------------------------------------------------
  // What the transitions keep and do

  /** The menu keeps the invariant. */
  lemma MenuStepKeepsInv(s: AppState, k: Key)
    requires Inv(s) && s.state == Menu
    ensures Inv(MenuStep(s, k))
  {
  }

  /** The add screen keeps the invariant. */
  lemma AddStepKeepsInv(s: AppState, k: Key)
    requires Inv(s) && s.state == Add
    ensures Inv(AddStep(s, k))
  {
    if IsSpecial(k, ENTER) && SplitOnce(s.param.text, " - ").Some? {
      var (phrase, translation) := SplitOnce(s.param.text, " - ").value;
      PutWellFormed(s.db, phrase, Record(translation, DefaultRate));
    }
  }

  /** ENTER on "phrase - translation" stores the translation under the phrase
      with the default rate, saves, and returns to the menu; every other phrase
      keeps its record. Without " - " it only shows the format hint. */
  lemma AddEnter(s: AppState, phrase: string, translation: string)
    requires s.state == Add && s.param.Buffer? && WellFormed(s.db)
    requires forall i :: 0 <= i < |phrase| ==> !OccursAt(phrase + " - " + translation, " - ", i)
    ensures var r := AddStep(s.(param := Buffer(phrase + " - " + translation)), SpecialKey(ENTER));
      r.state == Menu && r.saves == s.saves + 1 && WellFormed(r.db) &&
      phrase in r.db.values && r.db.values[phrase] == Record(translation, DefaultRate) &&
      forall j :: j != phrase && j in s.db.values ==> j in r.db.values && r.db.values[j] == s.db.values[j]
    ensures !Contains(s.param.text, " - ") ==> AddStep(s, SpecialKey(ENTER)) == s.(ui := s.ui + [Message(FormatHint)])
  {
    SplitOnceOfJoined(phrase, " - ", translation);
    PutWellFormed(s.db, phrase, Record(translation, DefaultRate));
  }

  /** A character typed on the add screen and then erased leaves it as it was. */
  lemma AddTypeThenErase(s: AppState, c: char)
    requires s.state == Add && s.param.Buffer?
    ensures AddStep(AddStep(s, TextKey([c])), SpecialKey(BACKSPACE)) == s
  {
    var t := AddStep(s, TextKey([c]));
    assert t.param.text[..|t.param.text| - 1] == s.param.text;
  }

  /** A refiltered search is consistent with the dictionary it was computed
      from. */
  lemma RefilteredOk(s: AppState, prompt: string)
    requires WellFormed(s.db)
    ensures SearchOk(Refiltered(s, prompt).param, s.db)
  {
    FilteredSpec(s.db, prompt);
  }

  /** The explore screen never fails on a consistent search and keeps the
      invariant: the selection stays between -1 and the last index of the list,
      and every listed phrase stays in the dictionary. */
  lemma ExploreStepKeepsInv(s: AppState, k: Key)
    requires Inv(s) && s.state == Explore && s.param.Search?
    ensures ExploreStep(s, k).Ok? && Inv(ExploreStep(s, k).value)
  {
    var p := s.param;
    if IsSpecial(k, ESCAPE) || (IsSpecial(k, ARROW_UP) && p.selection < |p.filtered| - 1)
      || (IsSpecial(k, ARROW_DOWN) && p.selection > -1) || IsSpecial(k, TAB)
    {
    } else if IsSpecial(k, BACKSPACE) {
      RefilteredOk(s, DropLast(p.prompt));
    } else if p.selection == -1 {
      RefilteredOk(s, p.prompt + k.printable);
    } else {
      var selected := p.filtered[p.selection];
      assert selected in p.filtered;
      if IsText(k, "d") {
        DelWellFormed(s.db, selected.0);
        RefilteredOk(s.(db := Del(s.db, selected.0).value, saves := s.saves + 1), p.prompt);
      }
    }
  }

  /** Typing changes the explore prompt only while nothing is selected; only
      BACKSPACE shortens it. */
  lemma ExplorePrompt(s: AppState, k: Key)
    requires Inv(s) && s.state == Explore && s.param.Search?
    ensures var r := ExploreStep(s, k);
      r.Ok? && r.value.param.Search? && r.value.param.prompt != s.param.prompt ==>
        IsSpecial(k, BACKSPACE) || (s.param.selection == -1 && r.value.param.prompt == s.param.prompt + k.printable)
  {
    ExploreStepKeepsInv(s, k);
  }

  /** The state ENTER leads to when the text holds " - " and the original
      phrase is present. */
  lemma EditEnterResult(s: AppState, k: Key)
    requires Inv(s) && s.state == Edit && Contains(s.param.edited, " - ") && IsSpecial(k, ENTER)
    ensures var p := s.param;
      var (phrase, translation) := SplitOnce(p.edited, " - ").value;
      var kept := if phrase != p.original.0 then Del(s.db, p.original.0).value else s.db;
      EditStep(s, k) == Ok(s.(db := Put(kept, phrase, Record(translation, p.original.1.rate)), saves := s.saves + 1,
                               state := Explore, param := FreshSearch))
  {
    assert !IsSpecial(k, ESCAPE);
    assert EditStep(s, k) == EditSave(s);
  }

  /** ENTER on an edit text with " - " keeps the dictionary well formed and
      returns to a fresh search. */
  lemma EditEnterKeepsInv(s: AppState, k: Key)
    requires Inv(s) && s.state == Edit && Contains(s.param.edited, " - ") && IsSpecial(k, ENTER)
    ensures EditStep(s, k).Ok? && Inv(EditStep(s, k).value)
  {
    var p := s.param;
    var (phrase, translation) := SplitOnce(p.edited, " - ").value;
    var kept := if phrase != p.original.0 then Del(s.db, p.original.0).value else s.db;
    if phrase != p.original.0 {
      DelWellFormed(s.db, p.original.0);
    }
    assert WellFormed(kept);
    PutWellFormed(kept, phrase, Record(translation, p.original.1.rate));
    EditEnterResult(s, k);
  }

  /** Every key but ENTER keeps the invariant: the cursor stays at 0 or more,
      but may pass the end of the text. */
  lemma EditKeyKeepsInv(s: AppState, k: Key)
    requires Inv(s) && s.state == Edit && !IsSpecial(k, ENTER)
    ensures EditStep(s, k).Ok? && Inv(EditStep(s, k).value)
  {
  }

  /** The edit screen keeps the invariant and fails only on ENTER when the text
      has no " - " (ValueError); ESC leaves the edit parameter on the explore
      screen. */
  lemma EditStepKeepsInv(s: AppState, k: Key)
    requires Inv(s) && s.state == Edit
    ensures EditStep(s, k).Err? <==> IsSpecial(k, ENTER) && !Contains(s.param.edited, " - ")
    ensures EditStep(s, k).Err? ==> EditStep(s, k).error == ValueError
    ensures EditStep(s, k).Ok? ==> Inv(EditStep(s, k).value)
    ensures IsSpecial(k, ESCAPE) ==> EditStep(s, k).Ok? && EditStep(s, k).value.param.Editing?
  {
    if !IsSpecial(k, ENTER) {
      EditKeyKeepsInv(s, k);
    } else if Contains(s.param.edited, " - ") {
      EditEnterKeepsInv(s, k);
    }
  }

  /** ENTER on the edit screen stores the new translation under the new phrase
      with the original rate, removes the original phrase when it changed, and
      leaves every other phrase as it was. */
  lemma EditEnter(s: AppState)
    requires Inv(s) && s.state == Edit && Contains(s.param.edited, " - ")
    ensures var (phrase, translation) := SplitOnce(s.param.edited, " - ").value;
      var r := EditStep(s, SpecialKey(ENTER));
      r.Ok? && r.value.state == Explore && r.value.param == FreshSearch && r.value.saves == s.saves + 1 &&
      r.value.db.values[phrase] == Record(translation, s.param.original.1.rate) &&
      (phrase != s.param.original.0 ==> s.param.original.0 !in r.value.db.values) &&
      forall j :: j != phrase && j != s.param.original.0 && j in s.db.values ==>
        j in r.value.db.values && r.value.db.values[j] == s.db.values[j]
  {
    EditEnterKeepsInv(s, SpecialKey(ENTER));
  }

  /** LEFT stops at 0; RIGHT stops at the end of the text, and brings back a
      cursor that had passed it. */
  lemma EditCursorClamps(s: AppState)
    requires Inv(s) && s.state == Edit
    ensures var l := EditStep(s, SpecialKey(ARROW_LEFT)).value.param.cursor;
      l == (if s.param.cursor == 0 then 0 else s.param.cursor - 1)
    ensures var r := EditStep(s, SpecialKey(ARROW_RIGHT)).value.param.cursor;
      r == (if s.param.cursor >= |s.param.edited| then |s.param.edited| else s.param.cursor + 1)
  {
  }

  /** A character typed on the edit screen and then erased leaves the text and
      the cursor as they were, when the cursor is within the text; past the
      end, BACKSPACE erases nothing and the character stays. */
  lemma EditTypeThenErase(s: AppState, c: char)
    requires Inv(s) && s.state == Edit
    ensures EditStep(s, TextKey([c])).Ok?
    ensures var t := EditStep(s, TextKey([c])).value;
      s.param.cursor <= |s.param.edited| ==> EditStep(t, SpecialKey(BACKSPACE)) == Ok(s)
    ensures var t := EditStep(s, TextKey([c])).value;
      s.param.cursor > |s.param.edited| ==>
        EditStep(t, SpecialKey(BACKSPACE)) == Ok(s.(param := s.param.(edited := s.param.edited + [c])))
  {
    var p := s.param;
    var t := EditStep(s, TextKey([c])).value;
    var e := t.param.edited;
    if p.cursor <= |p.edited| {
      assert e == p.edited[..p.cursor] + [c] + p.edited[p.cursor..];
      assert t.param == p.(edited := e, cursor := p.cursor + 1);
      assert Slice(e, 0, p.cursor) == p.edited[..p.cursor];
      assert Slice(e, p.cursor + 1, |e|) == p.edited[p.cursor..];
      assert p.edited[..p.cursor] + p.edited[p.cursor..] == p.edited;
    } else {
      assert e == p.edited + [c];
      assert Slice(e, 0, p.cursor) + Slice(e, p.cursor + 1, |e|) == e;
    }
  }

  /** The corrected handler keeps the cursor within the text, and leaves the
      explore screen only with a fresh search. */
  ghost predicate InvFixed(s: AppState)
  {
    Inv(s) && (s.state == Explore ==> s.param.Search?) &&
    (s.state == Edit ==> s.param.cursor <= |s.param.edited|)
  }

  /** The corrected edit screen keeps the stronger invariant, and fails only on
      ENTER when the text has no " - ". */
  lemma EditStepFixedKeepsInv(s: AppState, k: Key)
    requires InvFixed(s) && s.state == Edit
    ensures EditStepFixed(s, k).Err? <==> IsSpecial(k, ENTER) && !Contains(s.param.edited, " - ")
    ensures EditStepFixed(s, k).Ok? ==> InvFixed(EditStepFixed(s, k).value)
  {
    var p := s.param;
    if IsSpecial(k, ENTER) {
      if Contains(p.edited, " - ") {
        EditEnterKeepsInv(s, k);
      }
    } else if IsSpecial(k, BACKSPACE) && p.cursor > 0 && !IsSpecial(k, ESCAPE) {
      assert |Slice(p.edited, 0, p.cursor - 1) + Slice(p.edited, p.cursor, |p.edited|)| == |p.edited| - 1;
    }
  }

  // ---------------------------------------------------------------------------
  // The edit screen as written against the corrected one

  /** As written, ESC on the edit screen leaves the explore screen with the
      edit parameter, which has no `selection` or `prompt`: every key but ESC
      and TAB then raises KeyError in `handle_explore`. After the corrected ESC
      no key does. */
  lemma EscapeAsWrittenBreaksExplore(s: AppState, k: Key)
    requires Inv(s) && s.state == Edit
    requires !IsSpecial(k, ESCAPE) && !IsSpecial(k, TAB)
    ensures ExploreStep(EditEscapeAsWritten(s), k) == Err(KeyError)
    ensures Inv(EditEscape(s)) && ExploreStep(EditEscape(s), k).Ok?
  {
    ExploreStepKeepsInv(EditEscape(s), k);
  }

  /** As written, a special key such as HOME at the end of the text puts the
      cursor past the end, and the BACKSPACE that follows erases nothing;
      corrected, the cursor stays at the end and BACKSPACE erases the last
      character. */
  lemma SpecialKeyAsWrittenPassesEnd(s: AppState)
    requires Inv(s) && s.state == Edit && |s.param.edited| > 0 && s.param.cursor == |s.param.edited|
    ensures var t := EditStep(s, SpecialKey(HOME)).value;
      t.param.edited == s.param.edited && t.param.cursor == |s.param.edited| + 1 &&
      EditStep(t, SpecialKey(BACKSPACE)).value.param.edited == s.param.edited
    ensures var t := EditStepFixed(s, SpecialKey(HOME)).value;
      t.param.edited == s.param.edited && t.param.cursor == |s.param.edited| &&
      EditStep(t, SpecialKey(BACKSPACE)).value.param.edited == s.param.edited[..|s.param.edited| - 1]
  {
    var e := s.param.edited;
    assert Slice(e, 0, |e|) + Slice(e, |e| + 1, |e|) == e;
  }

  // ---------------------------------------------------------------------------
  // One turn of the main loop

  /** What `update_ui` needs to draw the current screen: the explore screen
      reads `prompt`, `filtered` and `selection`, the edit screen `original`,
      `edited` and `cursor_pos`; anything else raises KeyError. */
  predicate Drawable(s: AppState)
  {
    (s.state == Explore ==> s.param.Search?) && (s.state == Edit ==> s.param.Editing?)
  }

  /** One turn of `run`: `update_ui`, then the handler of the current screen
      on the key read. The training screen (Scroll) is not modelled and leaves
      the state as it is, as does Quit, which has no handler. */
  function Dispatch(s: AppState, k: Key): (r: Result<AppState>)
    requires Inv(s)
    ensures !Drawable(s) ==> r == Err(KeyError)
    ensures r.Err? ==> s.state == Explore || s.state == Edit
    ensures r.Ok? && r.value.db != s.db ==> s.state == Add || s.state == Explore || s.state == Edit
  {
    if !Drawable(s) then Err(KeyError)
    else
      match s.state
      case Menu => Ok(MenuStep(s, k))
      case Add => Ok(AddStep(s, k))
      case Explore => ExploreStep(s, k)
      case Edit => EditStep(s, k)
      case Scroll => Ok(s)
      case Quit => Ok(s)
  }

  /** Every turn keeps the invariant. A turn raises exactly when the explore
      screen holds the edit parameter (KeyError in `update_ui`) or on ENTER with
      an edit text without " - " (ValueError). */
  lemma DispatchKeepsInv(s: AppState, k: Key)
    requires Inv(s)
    ensures Dispatch(s, k).Err? <==>
      (s.state == Explore && s.param.Editing?) ||
      (s.state == Edit && IsSpecial(k, ENTER) && !Contains(s.param.edited, " - "))
    ensures Dispatch(s, k).Err? ==> Dispatch(s, k).error == (if s.state == Edit then ValueError else KeyError)
    ensures Dispatch(s, k).Ok? ==> Inv(Dispatch(s, k).value)
  {
    match s.state
    case Menu => MenuStepKeepsInv(s, k);
    case Add => AddStepKeepsInv(s, k);
    case Explore =>
      if s.param.Search? {
        ExploreStepKeepsInv(s, k);
      }
    case Edit => EditStepKeepsInv(s, k);
    case Scroll =>
    case Quit =>
  }

  /** As written, ESC on the edit screen ends the application at the next turn:
      `update_ui` raises KeyError on the explore screen, whatever key follows.
      With the corrected ESC the next turn does not raise. */
  lemma EditEscapeEndsRun(s: AppState, k: Key)
    requires Inv(s) && s.state == Edit
    ensures Dispatch(s, SpecialKey(ESCAPE)) == Ok(EditEscapeAsWritten(s))
    ensures Inv(EditEscapeAsWritten(s)) && Dispatch(EditEscapeAsWritten(s), k) == Err(KeyError)
    ensures s.param.cursor <= |s.param.edited| ==>
      EditStepFixed(s, SpecialKey(ESCAPE)).Ok? && Dispatch(EditStepFixed(s, SpecialKey(ESCAPE)).value, k).Ok?
  {
    EditStepKeepsInv(s, SpecialKey(ESCAPE));
    if s.param.cursor <= |s.param.edited| {
      DispatchKeepsInv(EditEscape(s), k);
    }
  }

  // ---------------------------------------------------------------------------
  // The objects

  /** `DB`: the phrase dictionary; `saves` counts the calls to `save`, whose
      file writing is not modelled. */
  class DB {
    var data: Dict
    var saves: nat

    /** `load` as a given dictionary. */
    constructor (d: Dict)
      ensures data == d && saves == 0
    {
      data := d;
      saves := 0;
    }

    /** `data[k] = v`. */
    method Set(k: string, v: Record)
      modifies this
      ensures data == Put(old(data), k, v) && saves == old(saves)
      ensures WellFormed(old(data)) ==> WellFormed(data)
    {
      if WellFormed(data) {
        PutWellFormed(data, k, v);
      }
      data := Put(data, k, v);
    }

    /** `del data[k]` on a present phrase. */
    method Delete(k: string)
      requires k in data.values
      modifies this
      ensures data == Del(old(data), k).value && saves == old(saves)
      ensures k !in data.values
      ensures WellFormed(old(data)) ==> WellFormed(data)
    {
      if WellFormed(data) {
        DelWellFormed(data, k);
      }
      data := Dict(Without(data.order, k), data.values - {k});
    }

    /** `save`. */
    method Save()
      modifies this
      ensures data == old(data) && saves == old(saves) + 1
    {
      saves := saves + 1;
    }
  }

  /** `TransDictionary`: the current screen, its parameter, whether the loop
      runs, and what was shown; the database is the shared `DB`. */
  class TransDictionary {
    var state: Screen
    var param: Param
    var running: bool
    var ui: seq<UiEvent>
    const db: DB

    /** The fields as one value, the state the transitions work on. */
    function Snapshot(): (r: AppState)
      reads this, db
      ensures r.state == state && r.param == param && r.db == db.data
    {
      AppState(state, param, running, db.data, db.saves, ui)
    }

    ghost predicate Valid()
      reads this, db
    {
      Inv(Snapshot())
    }

    /** `__init__` on a loaded database: the menu, no parameter, and the loop
        running unless loading failed (`loaded`). */
    constructor (d: DB, loaded: bool)
      requires WellFormed(d.data)
      ensures db == d && state == Menu && param == NoParam && running == loaded && ui == []
      ensures Valid()
    {
      db := d;
      state := Menu;
      param := NoParam;
      running := loaded;
      ui := [];
    }

    /** `handle_menu`. */
    method HandleMenu(k: Key)
      modifies this
      ensures Snapshot() == MenuStep(old(Snapshot()), k)
    {
      if IsText(k, "a") {
        state := Add;
        param := Buffer("");
      } else if IsText(k, "e") {
        state := Explore;
        param := FreshSearch;
      } else if IsSpecial(k, ENTER) {
        state := Scroll;
        param := NoParam;
      } else if IsText(k, "r") {
        ui := ui + [Cleared];
      } else if IsSpecial(k, ESCAPE) {
        ui := ui + [Message(DbSize(|db.data.order|))];
      } else if IsText(k, "q") {
        running := false;
      } else {
        ui := ui + [Message(UnknownCommand(k.printable))];
      }
    }

    /** `handle_add`, on the add buffer. */
    method HandleAdd(k: Key)
      requires state == Add && param.Buffer?
      modifies this, db
      ensures Snapshot() == AddStep(old(Snapshot()), k)
    {
      if IsSpecial(k, ESCAPE) {
        state := Menu;
        param := NoParam;
      } else if IsSpecial(k, ENTER) {
        match SplitOnce(param.text, " - ")
        case Some((phrase, translation)) =>
          db.Set(phrase, Record(translation, DefaultRate));
          db.Save();
          ui := ui + [Message(Added(phrase))];
          state := Menu;
          param := NoParam;
        case None =>
          ui := ui + [Message(FormatHint)];
      } else if IsSpecial(k, BACKSPACE) {
        param := Buffer(DropLast(param.text));
      } else {
        param := Buffer(param.text + k.printable);
      }
    }

    /** `update_filtered`: the list and the selection follow the prompt. */
    method UpdateFiltered()
      requires param.Search? && WellFormed(db.data)
      modifies this
      ensures Snapshot() == Refiltered(old(Snapshot()), old(param.prompt))
    {
      var f := Filtered(db.data, param.prompt);
      param := param.(filtered := f, selection := if f == [] then -1 else 0);
    }

    /** `handle_explore`, on a consistent search. */
    method HandleExplore(k: Key)
      requires Valid() && state == Explore && param.Search?
      modifies this, db
      ensures Snapshot() == ExploreStep(old(Snapshot()), k).value
      ensures Valid()
    {
      ExploreStepKeepsInv(Snapshot(), k);
      if IsSpecial(k, ESCAPE) {
        state := Menu;
        param := NoParam;
      } else if IsSpecial(k, ARROW_UP) && param.selection < |param.filtered| - 1 {
        param := param.(selection := param.selection + 1);
      } else if IsSpecial(k, ARROW_DOWN) && param.selection > -1 {
        param := param.(selection := param.selection - 1);
      } else if IsSpecial(k, TAB) {
      } else if IsSpecial(k, BACKSPACE) {
        param := param.(prompt := DropLast(param.prompt));
        UpdateFiltered();
      } else if param.selection == -1 {
        param := param.(prompt := param.prompt + k.printable);
        UpdateFiltered();
      } else if IsText(k, "d") {
        DeleteSelected(k);
      } else if IsText(k, "e") {
        var selected := param.filtered[param.selection];
        var text := selected.0 + " - " + selected.1.translation;
        state := Edit;
        param := Editing(selected, text, |text|);
      }
    }

    /** `handle_edit`. ENTER on a text without " - " raises ValueError (`err`)
        and changes nothing. */
    method HandleEdit(k: Key) returns (err: Option<Error>)
      requires Valid() && state == Edit
      modifies this, db
      ensures var r := EditStep(old(Snapshot()), k);
        (err.None? <==> r.Ok?) && (r.Err? ==> err == Some(r.error) && Snapshot() == old(Snapshot()))
      ensures err.None? ==> Snapshot() == EditStep(old(Snapshot()), k).value && Valid()
    {
      EditStepKeepsInv(Snapshot(), k);
      err := None;
      if IsSpecial(k, ESCAPE) {
        state := Explore;
      } else if IsSpecial(k, ENTER) {
        if Contains(param.edited, " - ") {
          SaveEdit(k);
        } else {
          err := Some(ValueError);
        }
      } else if IsSpecial(k, BACKSPACE) {
        if param.cursor > 0 {
          var e := param.edited;
          param := param.(edited := Slice(e, 0, param.cursor - 1) + Slice(e, param.cursor, |e|), cursor := param.cursor - 1);
        }
      } else if IsSpecial(k, ARROW_LEFT) {
        param := param.(cursor := if param.cursor - 1 < 0 then 0 else param.cursor - 1);
      } else if IsSpecial(k, ARROW_RIGHT) {
        param := param.(cursor := if |param.edited| < param.cursor + 1 then |param.edited| else param.cursor + 1);
      } else {
        var e, pos := param.edited, param.cursor;
        param := param.(edited := Slice(e, 0, pos) + k.printable + Slice(e, pos, |e|));
        param := param.(cursor := param.cursor + 1);
      }
    }

    /** The 'd' branch of `handle_explore`: delete the selected phrase, save,
        and filter again. */
    method DeleteSelected(k: Key)
      requires Valid() && state == Explore && param.Search? && 0 <= param.selection && IsText(k, "d")
      requires !IsSpecial(k, ESCAPE) && !IsSpecial(k, TAB) && !IsSpecial(k, BACKSPACE)
      requires !(IsSpecial(k, ARROW_UP) && param.selection < |param.filtered| - 1)
      requires !(IsSpecial(k, ARROW_DOWN) && param.selection > -1)
      modifies this, db
      ensures Snapshot() == ExploreStep(old(Snapshot()), k).value
    {
      var selected := param.filtered[param.selection];
      assert selected in param.filtered;
      db.Delete(selected.0);
      db.Save();
      UpdateFiltered();
    }

    /** ENTER on the edit screen with " - " in the text: drop the original
        phrase when it changed, store the new one with the original rate, save,
        and return to a fresh search. */
    method SaveEdit(k: Key)
      requires Valid() && state == Edit && IsSpecial(k, ENTER) && Contains(param.edited, " - ")
      modifies this, db
      ensures Snapshot() == EditStep(old(Snapshot()), k).value
    {
      EditEnterResult(Snapshot(), k);
      var (phrase, translation) := SplitOnce(param.edited, " - ").value;
      var original := param.original;
      if phrase != original.0 {
        db.Delete(original.0);
      }
      db.Set(phrase, Record(translation, original.1.rate));
      db.Save();
      state := Explore;
      param := FreshSearch;
    }

    /** `update_ui`: KeyError when the current screen holds another screen's
        parameter; what it draws is not modelled. */
    method UpdateUi() returns (err: Option<Error>)
      requires Valid()
      ensures err.None? <==> Drawable(Snapshot())
      ensures err.Some? ==> err.value == KeyError && state == Explore && param.Editing?
    {
      err := None;
      if state == Explore && !param.Search? {
        err := Some(KeyError);
      }
    }

    /** One turn of `run` with the key read: `update_ui`, then the handler of
        the current screen. */
    method HandleKey(k: Key) returns (err: Option<Error>)
      requires Valid()
      modifies this, db
      ensures var r := Dispatch(old(Snapshot()), k);
        (err.None? <==> r.Ok?) && (r.Err? ==> err == Some(r.error) && Snapshot() == old(Snapshot()))
      ensures err.None? ==> Snapshot() == Dispatch(old(Snapshot()), k).value && Valid()
    {
      DispatchKeepsInv(Snapshot(), k);
      err := UpdateUi();
      if err.Some? {
        return;
      }
      match state
      case Menu => HandleMenu(k);
      case Add => HandleAdd(k);
      case Explore => HandleExplore(k);
      case Edit => err := HandleEdit(k);
      case Scroll =>
      case Quit =>
    }
  }
}
