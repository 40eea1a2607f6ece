/**
 * The editing commands on the data snapshot: moving a skill within its
 * tier, adding, renaming and removing categories, adding and removing
 * skills, and toggling the highlighted band. Each takes the old snapshot to
 * a new one; the messages shown to the user and whether the input box is
 * cleared are part of the outcome.
 */
module Editing {
  import opened Chart
  import TextMetrics

  datatype Option<T> = None | Some(value: T)

  // ---------------------------------------------------------------------
  // Trimming

  /** `trim`'s left half: the leading whitespace removed. */
  function TrimStart(s: string): (r: string)
    ensures |r| <= |s| && r == s[|s| - |r|..]
    ensures r == [] || !TextMetrics.IsSpace(r[0])
  {
    if s != [] && TextMetrics.IsSpace(s[0]) then TrimStart(s[1..]) else s
  }

  /** Everything `TrimStart` drops is whitespace. */
  lemma {:induction false} TrimStartDropsSpaces(s: string)
    ensures forall k :: 0 <= k < |s| - |TrimStart(s)| ==> TextMetrics.IsSpace(s[k])
  {
    if s != [] && TextMetrics.IsSpace(s[0]) {
      TrimStartDropsSpaces(s[1..]);
      assert forall k :: 1 <= k < |s| - |TrimStart(s)| ==> s[k] == s[1..][k - 1];
    }
  }

  /** `trim`'s right half: the trailing whitespace removed. */
  function TrimEnd(s: string): (r: string)
    ensures |r| <= |s| && r == s[..|r|]
    ensures r == [] || !TextMetrics.IsSpace(r[|r| - 1])
  {
    if s != [] && TextMetrics.IsSpace(s[|s| - 1]) then TrimEnd(s[..|s| - 1]) else s
  }

  /** Everything `TrimEnd` drops is whitespace. */
  lemma {:induction false} TrimEndDropsSpaces(s: string)
    ensures forall k :: |TrimEnd(s)| <= k < |s| ==> TextMetrics.IsSpace(s[k])
  {
    if s != [] && TextMetrics.IsSpace(s[|s| - 1]) {
      TrimEndDropsSpaces(s[..|s| - 1]);
    }
  }

  /** `norm`: the name with surrounding whitespace removed. */
  function Trim(s: string): string {
    TrimEnd(TrimStart(s))
  }

  /** The name is blank: nothing but whitespace. */
  predicate Blank(s: string) {
    forall k :: 0 <= k < |s| ==> TextMetrics.IsSpace(s[k])
  }

  /** Trimming keeps a contiguous piece of the name. */
  lemma TrimPiece(s: string)
    ensures |s| - |TrimStart(s)| + |Trim(s)| <= |s|
    ensures Trim(s) == s[|s| - |TrimStart(s)|..|s| - |TrimStart(s)| + |Trim(s)|]
  {
    var a := TrimStart(s);
    var r := TrimEnd(a);
    SliceOfSuffix(s, a, r);
  }

  /** A prefix of a suffix is a slice. */
  lemma SliceOfSuffix<T>(s: seq<T>, a: seq<T>, r: seq<T>)
    requires |a| <= |s| && a == s[|s| - |a|..]
    requires |r| <= |a| && r == a[..|r|]
    ensures r == s[|s| - |a|..|s| - |a| + |r|]
  {
  }

  /** The piece trimming keeps neither starts nor ends with whitespace. */
  lemma TrimEnds(s: string)
    ensures Trim(s) == [] || !TextMetrics.IsSpace(Trim(s)[0])
    ensures Trim(s) == [] || !TextMetrics.IsSpace(Trim(s)[|Trim(s)| - 1])
  {
    var a := TrimStart(s);
    var r := TrimEnd(a);
    if r != [] {
      assert r[0] == a[0];
    }
  }

  /** What trimming drops, on either side of the piece it keeps, is whitespace. */
  lemma TrimDropsSpaces(s: string)
    ensures var r := Trim(s);
      var i := |s| - |TrimStart(s)|;
      && (forall k :: 0 <= k < i ==> TextMetrics.IsSpace(s[k]))
      && (forall k :: i + |r| <= k < |s| ==> TextMetrics.IsSpace(s[k]))
  {
    var a := TrimStart(s);
    var r := TrimEnd(a);
    var i := |s| - |a|;
    TrimStartDropsSpaces(s);
    TrimEndDropsSpaces(a);
    forall k | i + |r| <= k < |s|
      ensures TextMetrics.IsSpace(s[k])
    {
      assert s[k] == a[k - i];
    }
  }

  /** A name trims to nothing exactly when it is blank. */
  lemma TrimBlank(s: string)
    ensures Trim(s) == [] <==> Blank(s)
  {
    var a := TrimStart(s);
    var i := |s| - |a|;
    if Trim(s) != [] {
      assert a != [] && a == s[i..] && !TextMetrics.IsSpace(a[0]);
      assert !TextMetrics.IsSpace(s[i]);
    } else {
      TrimStartDropsSpaces(s);
      TrimEndDropsSpaces(a);
      assert a == [];
    }
  }

  /** Trimming twice is trimming once. */
  lemma TrimIdempotent(s: string)
    ensures Trim(Trim(s)) == Trim(s)
  {
    var r := Trim(s);
    if r != [] {
      assert TrimStart(r) == r;
      assert TrimEnd(r) == r;
    }
  }

  // ---------------------------------------------------------------------
  // Reordering

  /** `safeTo`: the target index clamped to [0, len]. */
  function SafeTo(to: int, len: nat): (k: nat)
    ensures k <= len
    ensures 0 <= to <= len ==> k == to
    ensures to < 0 ==> k == 0
    ensures to > len ==> k == len
  {
    if to < 0 then 0 else if to > len then len else to
  }

  /** The sequence with index `i` taken out. */
  function Without<T>(s: seq<T>, i: nat): (r: seq<T>)
    requires i < |s|
    ensures |r| == |s| - 1
    ensures forall k :: 0 <= k < i ==> r[k] == s[k]
    ensures forall k :: i <= k < |r| ==> r[k] == s[k + 1]
  {
    s[..i] + s[i + 1..]
  }

  /** The sequence with `x` put in at index `i`. */
  function Insert<T>(s: seq<T>, i: nat, x: T): (r: seq<T>)
    requires i <= |s|
    ensures |r| == |s| + 1 && r[i] == x
    ensures forall k :: 0 <= k < i ==> r[k] == s[k]
    ensures forall k :: i < k < |r| ==> r[k] == s[k - 1]
  {
    s[..i] + [x] + s[i..]
  }

  /** `reorder` as a function: the item at `from` taken out and put back in at the clamped target. */
  function Moved<T>(arr: seq<T>, from: nat, to: int): seq<T>
    requires from < |arr|
  {
    if from == to then arr else Insert(Without(arr, from), SafeTo(to, |arr| - 1), arr[from])
  }

  /** `splice(from, 1)`: the elements after `from` shift down one place; the last slot is left as it was. */
  method TakeOut<T>(a: array<T>, from: nat)
    requires from < a.Length
    modifies a
    ensures a[..a.Length - 1] == Without(old(a[..]), from)
    ensures a[a.Length - 1] == old(a[a.Length - 1])
  {
    ghost var s := a[..];
    var i := from;
    while i < a.Length - 1
      invariant from <= i <= a.Length - 1
      invariant forall k :: 0 <= k < from ==> a[k] == s[k]
      invariant forall k :: from <= k < i ==> a[k] == s[k + 1]
      invariant forall k :: i <= k < a.Length ==> a[k] == s[k]
    {
      a[i] := a[i + 1];
      i := i + 1;
    }
  }

  /** `splice(k, 0, x)` on the first `a.Length - 1` elements: those from `k` on shift up one place and `x` goes in at `k`. */
  method PutIn<T>(a: array<T>, k: nat, x: T)
    requires k < a.Length
    modifies a
    ensures a[..] == Insert(old(a[..a.Length - 1]), k, x)
  {
    ghost var s := a[..a.Length - 1];
    var j := a.Length - 1;
    while j > k
      invariant k <= j <= a.Length - 1
      invariant forall m :: 0 <= m < j ==> a[m] == s[m]
      invariant forall m :: j < m < a.Length ==> a[m] == s[m - 1]
    {
      a[j] := a[j - 1];
      j := j - 1;
    }
    a[k] := x;
  }

  /**
   * `reorder`: copy the array, take out the item at `from` and put it back
   * in at the target clamped to the shortened array.
   */
  method Reorder<T>(arr: seq<T>, from: nat, to: int) returns (r: seq<T>)
    requires from < |arr|
    ensures r == Moved(arr, from, to)
  {
    var a := new T[|arr|](k requires 0 <= k < |arr| => arr[k]);
    assert a[..] == arr;
    if from == to {
      return a[..];
    }
    var item := a[from];
    TakeOut(a, from);
    var safeTo := SafeTo(to, a.Length - 1);
    PutIn(a, safeTo, item);
    r := a[..];
  }

  lemma WithoutCount<T>(s: seq<T>, i: nat)
    requires i < |s|
    ensures multiset(Without(s, i)) + multiset{s[i]} == multiset(s)
  {
    assert s == s[..i] + [s[i]] + s[i + 1..];
  }

  lemma InsertCount<T>(s: seq<T>, i: nat, x: T)
    requires i <= |s|
    ensures multiset(Insert(s, i, x)) == multiset(s) + multiset{x}
  {
    assert s == s[..i] + s[i..];
  }

  /** Moving keeps every element: the result is a permutation of the input. */
  lemma MovedPermutes<T>(arr: seq<T>, from: nat, to: int)
    requires from < |arr|
    ensures |Moved(arr, from, to)| == |arr|
    ensures multiset(Moved(arr, from, to)) == multiset(arr)
  {
    if from != to {
      WithoutCount(arr, from);
      InsertCount(Without(arr, from), SafeTo(to, |arr| - 1), arr[from]);
    }
  }

  /** The moved item lands at the target clamped to the array. */
  lemma MovedPlacesItem<T>(arr: seq<T>, from: nat, to: int)
    requires from < |arr|
    ensures Moved(arr, from, to)[SafeTo(to, |arr| - 1)] == arr[from]
  {
  }

  /** Putting an element back where it was taken out restores the sequence. */
  lemma InsertWithout<T>(s: seq<T>, i: nat)
    requires i < |s|
    ensures Insert(Without(s, i), i, s[i]) == s
  {
    assert Insert(Without(s, i), i, s[i]) == s[..i] + [s[i]] + s[i + 1..];
    assert s == s[..i] + [s[i]] + s[i + 1..];
  }

  /** Taking out an element just put in restores the sequence. */
  lemma WithoutInsert<T>(s: seq<T>, i: nat, x: T)
    requires i <= |s|
    ensures Without(Insert(s, i, x), i) == s
  {
    assert Without(Insert(s, i, x), i) == s[..i] + s[i..];
    assert s == s[..i] + s[i..];
  }

  /**
   * Taking the item back out of the result leaves the other elements in
   * their original order; so moving it to where it already is changes
   * nothing.
   */
  lemma MovedKeepsOthers<T>(arr: seq<T>, from: nat, to: int)
    requires from < |arr|
    ensures Without(Moved(arr, from, to), SafeTo(to, |arr| - 1)) == Without(arr, from)
    ensures SafeTo(to, |arr| - 1) == from ==> Moved(arr, from, to) == arr
  {
    var k := SafeTo(to, |arr| - 1);
    if from != to {
      WithoutInsert(Without(arr, from), k, arr[from]);
      if k == from {
        InsertWithout(arr, from);
      }
    }
  }

  /** Moving the item back from where it landed restores the original. */
  lemma MovedRoundTrip<T>(arr: seq<T>, from: nat, to: int)
    requires from < |arr|
    ensures SafeTo(to, |arr| - 1) < |Moved(arr, from, to)|
    ensures Moved(Moved(arr, from, to), SafeTo(to, |arr| - 1), from) == arr
  {
    var k := SafeTo(to, |arr| - 1);
    var m := Moved(arr, from, to);
    assert |m| == |arr|;
    MovedKeepsOthers(arr, from, to);
    if k != from {
      assert m[k] == arr[from];
      assert Moved(m, k, from) == Insert(Without(m, k), from, m[k]);
      InsertWithout(arr, from);
    }
  }

  // ---------------------------------------------------------------------
  // Commands on the snapshot

  /** What the user is told. */
  datatype Notice = Silent | Toast(message: string)

  /** A command's result: the new snapshot, the notice, and whether the input box is cleared. */
  datatype Outcome = Outcome(data: Data, notice: Notice, clearInput: bool)

  const CategoryExists: string := "分类已存在"
  const SkillExists: string := "该技能已存在"

  /** Category `idx`, when there is one, with the list of `level` replaced by `v`. */
  function WithTier(cats: seq<Category>, idx: int, level: Tier, v: seq<string>): (r: seq<Category>)
    ensures |r| == |cats|
    ensures forall i :: 0 <= i < |cats| && i != idx ==> r[i] == cats[i]
    ensures 0 <= idx < |cats| ==> r[idx] == Category(cats[idx].name, cats[idx].skills.With(level, v))
  {
    seq(|cats|, i requires 0 <= i < |cats| =>
      if i == idx then Category(cats[i].name, cats[i].skills.With(level, v)) else cats[i])
  }

  /** `moveSkill`: reorder one tier of one category; everything else stays. */
  function MoveSkill(d: Data, catIndex: int, level: Tier, fromIndex: nat, toIndex: int): (r: Data)
    requires 0 <= catIndex < |d.categories| ==> fromIndex < |d.categories[catIndex].skills.Get(level)|
  {
    if 0 <= catIndex < |d.categories| then
      Data(WithTier(d.categories, catIndex, level, Moved(d.categories[catIndex].skills.Get(level), fromIndex, toIndex)))
    else d
  }

  /**
   * Moving a skill changes only the targeted tier of the targeted category,
   * and that tier keeps the same skills.
   */
  lemma MoveSkillLocal(d: Data, catIndex: int, level: Tier, fromIndex: nat, toIndex: int)
    requires 0 <= catIndex < |d.categories| ==> fromIndex < |d.categories[catIndex].skills.Get(level)|
    ensures var r := MoveSkill(d, catIndex, level, fromIndex, toIndex);
      && |r.categories| == |d.categories|
      && (forall i :: 0 <= i < |d.categories| ==> r.categories[i].name == d.categories[i].name)
      && (forall i, t :: 0 <= i < |d.categories| && (i != catIndex || t != level) ==>
            r.categories[i].skills.Get(t) == d.categories[i].skills.Get(t))
      && (forall i :: 0 <= i < |d.categories| ==>
            multiset(r.categories[i].skills.Get(level)) == multiset(d.categories[i].skills.Get(level)))
  {
    if 0 <= catIndex < |d.categories| {
      MovedPermutes(d.categories[catIndex].skills.Get(level), fromIndex, toIndex);
    }
  }

  /** `addCategory`: a trimmed, non-blank, new name is appended with four empty tiers. */
  function AddCategory(d: Data, newCatName: string): (o: Outcome) {
    var name := Trim(newCatName);
    if name == [] then Outcome(d, Silent, false)
    else if exists i :: 0 <= i < |d.categories| && d.categories[i].name == name then Outcome(d, Toast(CategoryExists), false)
    else Outcome(Data(d.categories + [Category(name, NoSkills)]), Silent, true)
  }

  /** The category names are pairwise distinct. */
  predicate UniqueNames(cats: seq<Category>) {
    forall i, j :: 0 <= i < j < |cats| ==> cats[i].name != cats[j].name
  }

  /**
   * Adding a category does nothing for a blank name, warns and does nothing
   * for a name already present, and otherwise appends exactly one category,
   * named by the trimmed input, with four empty tiers, and clears the input;
   * names stay distinct.
   */
  lemma AddCategoryOutcomes(d: Data, newCatName: string)
    ensures var o := AddCategory(d, newCatName);
      && (Blank(newCatName) ==> o == Outcome(d, Silent, false))
      && (!Blank(newCatName) && (exists i :: 0 <= i < |d.categories| && d.categories[i].name == Trim(newCatName)) ==>
            o == Outcome(d, Toast(CategoryExists), false))
      && (!Blank(newCatName) && !(exists i :: 0 <= i < |d.categories| && d.categories[i].name == Trim(newCatName)) ==>
            o == Outcome(Data(d.categories + [Category(Trim(newCatName), NoSkills)]), Silent, true))
      && (o.data != d ==> o.data.categories == d.categories + [Category(Trim(newCatName), NoSkills)] && o.clearInput)
      && (UniqueNames(d.categories) ==> UniqueNames(o.data.categories))
  {
    TrimBlank(newCatName);
  }

  /** `removeCategory`: the category at `idx`, if any, is dropped. */
  function RemoveCategory(d: Data, idx: int): Data {
    if 0 <= idx < |d.categories| then Data(Without(d.categories, idx)) else d
  }

  /** Removing the category just added restores the snapshot. */
  lemma AddThenRemoveCategory(d: Data, newCatName: string)
    ensures RemoveCategory(AddCategory(d, newCatName).data, |d.categories|) == d
  {
    var o := AddCategory(d, newCatName);
    if o.data != d {
      assert Without(o.data.categories, |d.categories|) == d.categories;
    }
  }

  /** Removing a category keeps the order of the others and their distinct names. */
  lemma RemoveCategoryKeeps(d: Data, idx: int)
    ensures var r := RemoveCategory(d, idx).categories;
      && (0 <= idx < |d.categories| ==> |r| == |d.categories| - 1)
      && (forall k :: 0 <= k < |r| ==> r[k] == d.categories[if 0 <= idx <= k then k + 1 else k])
      && (UniqueNames(d.categories) ==> UniqueNames(r))
  {
  }

  /** `updateCategoryName`: a trimmed, non-blank name replaces the name at `idx`; nothing checks it is new. */
  function UpdateCategoryName(d: Data, idx: int, name: string): (r: Data) {
    var v := Trim(name);
    if v == [] then d
    else Data(seq(|d.categories|, i requires 0 <= i < |d.categories| =>
      if i == idx then Category(v, d.categories[i].skills) else d.categories[i]))
  }

  /** Renaming changes nothing but the name at `idx`, and a blank name changes nothing. */
  lemma RenameLocal(d: Data, idx: int, name: string)
    ensures var r := UpdateCategoryName(d, idx, name).categories;
      && |r| == |d.categories|
      && (forall i :: 0 <= i < |r| ==> r[i].skills == d.categories[i].skills)
      && (forall i :: 0 <= i < |r| && (i != idx || Blank(name)) ==> r[i].name == d.categories[i].name)
      && (0 <= idx < |r| && !Blank(name) ==> r[idx].name == Trim(name))
  {
    TrimBlank(name);
  }

  /** Unlike adding, renaming can make two categories share a name. */
  lemma RenameCanDuplicate()
    ensures var d := Data([Category("A", NoSkills), Category("B", NoSkills)]);
      && UniqueNames(d.categories)
      && !UniqueNames(UpdateCategoryName(d, 1, "A").categories)
  {
    var d := Data([Category("A", NoSkills), Category("B", NoSkills)]);
    assert !TextMetrics.IsSpace('A');
    assert Trim("A") == "A";
    var r := UpdateCategoryName(d, 1, "A").categories;
    assert r[0].name == r[1].name;
  }

  /** `addSkill`: a trimmed, non-blank skill not yet in that tier is appended to it. */
  function AddSkill(d: Data, idx: int, level: Tier, raw: string): (o: Outcome) {
    var v := Trim(raw);
    if v == [] then Outcome(d, Silent, false)
    else if 0 <= idx < |d.categories| && v in d.categories[idx].skills.Get(level) then Outcome(d, Toast(SkillExists), false)
    else if 0 <= idx < |d.categories| then
      Outcome(Data(WithTier(d.categories, idx, level, d.categories[idx].skills.Get(level) + [v])), Silent, true)
    else Outcome(d, Silent, true)
  }

  /** No tier of any category lists a skill twice. */
  predicate DistinctSkills(cats: seq<Category>) {
    forall i, t, j, k :: 0 <= i < |cats| && 0 <= j < k < |cats[i].skills.Get(t)| ==>
      cats[i].skills.Get(t)[j] != cats[i].skills.Get(t)[k]
  }

  /**
   * Adding a skill rejects a blank name silently and a name already in that
   * tier with a warning; otherwise it appends exactly the trimmed name to that
   * tier and nothing else changes, so no tier ever lists a skill twice.
   */
  lemma AddSkillOutcomes(d: Data, idx: int, level: Tier, raw: string)
    ensures var o := AddSkill(d, idx, level, raw);
      && (Blank(raw) ==> o == Outcome(d, Silent, false))
      && (!Blank(raw) && 0 <= idx < |d.categories| && Trim(raw) in d.categories[idx].skills.Get(level) ==>
            o == Outcome(d, Toast(SkillExists), false))
      && (o.data != d ==>
            && 0 <= idx < |d.categories|
            && Trim(raw) !in d.categories[idx].skills.Get(level)
            && o.data.categories == WithTier(d.categories, idx, level, d.categories[idx].skills.Get(level) + [Trim(raw)]))
      && (DistinctSkills(d.categories) ==> DistinctSkills(o.data.categories))
  {
    TrimBlank(raw);
  }

  /**
   * A non-blank skill not yet in that tier of an existing category is
   * appended to exactly that tier, silently, and the input is cleared; for a
   * category index out of range nothing changes but the input is cleared.
   */
  lemma AddSkillAppends(d: Data, idx: int, level: Tier, raw: string)
    requires !Blank(raw)
    ensures var o := AddSkill(d, idx, level, raw);
      && (0 <= idx < |d.categories| && Trim(raw) !in d.categories[idx].skills.Get(level) ==>
            && o == Outcome(Data(WithTier(d.categories, idx, level, d.categories[idx].skills.Get(level) + [Trim(raw)])), Silent, true)
            && o.data.categories[idx].skills.Get(level) == d.categories[idx].skills.Get(level) + [Trim(raw)])
      && (!(0 <= idx < |d.categories|) ==> o == Outcome(d, Silent, true))
  {
    TrimBlank(raw);
  }

  /** `removeSkill`: the skill at `skillIndex` of that tier, if any, is dropped. */
  function RemoveSkill(d: Data, idx: int, level: Tier, skillIndex: int): Data {
    if 0 <= idx < |d.categories| && 0 <= skillIndex < |d.categories[idx].skills.Get(level)| then
      Data(WithTier(d.categories, idx, level, Without(d.categories[idx].skills.Get(level), skillIndex)))
    else d
  }

  /** Removing the skill just added restores the snapshot. */
  lemma AddThenRemoveSkill(d: Data, idx: int, level: Tier, raw: string)
    requires 0 <= idx < |d.categories|
    ensures var r := AddSkill(d, idx, level, raw).data;
      RemoveSkill(r, idx, level, |d.categories[idx].skills.Get(level)|) == d
  {
    var o := AddSkill(d, idx, level, raw);
    var before := d.categories[idx].skills.Get(level);
    if o.data != d {
      var cats := o.data.categories;
      assert cats[idx].skills.Get(level) == before + [Trim(raw)];
      assert Without(before + [Trim(raw)], |before|) == before;
      var back := WithTier(cats, idx, level, before);
      assert back[idx].skills == d.categories[idx].skills by {
        var s := d.categories[idx].skills;
        assert s.With(level, s.Get(level) + [Trim(raw)]).With(level, before) == s by {
          match level
          case Comfortable =>
          case Challenging =>
          case Near =>
          case Far =>
        }
      }
      assert back == d.categories;
    }
  }

  /** Removing a skill drops exactly that entry, keeps the rest in order, and keeps tiers free of repeats. */
  lemma RemoveSkillKeeps(d: Data, idx: int, level: Tier, skillIndex: int)
    ensures var r := RemoveSkill(d, idx, level, skillIndex).categories;
      && |r| == |d.categories|
      && (forall i, t :: 0 <= i < |r| && (i != idx || t != level) ==> r[i].skills.Get(t) == d.categories[i].skills.Get(t))
      && (forall i :: 0 <= i < |r| ==> r[i].name == d.categories[i].name)
      && (0 <= idx < |r| ==> var before := d.categories[idx].skills.Get(level);
            var after := r[idx].skills.Get(level);
            && (0 <= skillIndex < |before| ==> |after| == |before| - 1)
            && (forall k :: 0 <= k < |after| ==> after[k] == before[if 0 <= skillIndex <= k then k + 1 else k]))
      && (DistinctSkills(d.categories) ==> DistinctSkills(r))
  {
  }

  // ---------------------------------------------------------------------
  // Highlight

  /** The highlighted band: a category index and a tier, or none. */
  datatype Highlight = Highlight(catIndex: Option<nat>, level: Option<Tier>)

  const NoHighlight: Highlight := Highlight(None, None)

  /** `activeThis`: band (i, lv) is the highlighted one. */
  predicate IsActive(h: Highlight, i: nat, lv: Tier) {
    h.catIndex == Some(i) && h.level == Some(lv)
  }

  /** A click on band (i, lv): clear the highlight if it is that band, else highlight it. */
  function Toggle(h: Highlight, i: nat, lv: Tier): Highlight {
    var same := h.catIndex == Some(i) && h.level == Some(lv);
    Highlight(if same then None else Some(i), if same then None else Some(lv))
  }

  /**
   * A click flips whether the clicked band is highlighted and leaves no other
   * band highlighted; two clicks on the same band, starting from nothing
   * highlighted or from that band, give back the starting state.
   */
  lemma ToggleFlips(h: Highlight, i: nat, lv: Tier)
    ensures IsActive(Toggle(h, i, lv), i, lv) == !IsActive(h, i, lv)
    ensures forall j: nat, u :: (j != i || u != lv) ==> !IsActive(Toggle(h, i, lv), j, u)
    ensures (h == NoHighlight || IsActive(h, i, lv)) ==> Toggle(Toggle(h, i, lv), i, lv) == h
  {
  }
}
