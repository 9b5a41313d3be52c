/** The input bar (`TaskInput` in frontend/src/App.js): its form state, the
    submit rule and the priority toggle. */
module TaskInput {
  import opened TaskModel
  import Board

  /** ECMAScript white space and line terminators, which `String.prototype.trim`
      strips: TAB, LF, VT, FF, CR, SPACE, NBSP, OGHAM SPACE MARK, the spaces
      U+2000 to U+200A, LINE and PARAGRAPH SEPARATOR, NARROW NBSP, MEDIUM
      MATHEMATICAL SPACE, IDEOGRAPHIC SPACE and the byte order mark. */
  predicate IsSpace(c: char)
  {
    var n := c as int;
    || (9 <= n <= 13) || n == 0x20 || n == 0xA0 || n == 0x1680
    || (0x2000 <= n <= 0x200A) || n == 0x2028 || n == 0x2029 || n == 0x202F
    || n == 0x205F || n == 0x3000 || n == 0xFEFF
  }

  predicate AllSpace(s: string)
  {
    forall i :: 0 <= i < |s| ==> IsSpace(s[i])
  }

  /** How many characters of white space `s` starts with. */
  function LeadingSpaces(s: string): (n: nat)
    ensures n <= |s|
    ensures forall k :: 0 <= k < n ==> IsSpace(s[k])
    ensures n < |s| ==> !IsSpace(s[n])
  {
    if s == [] || !IsSpace(s[0]) then 0
    else 1 + LeadingSpaces(s[1..])
  }

  /** How many characters of white space `s` ends with. */
  function TrailingSpaces(s: string): (n: nat)
    ensures n <= |s|
    ensures forall k :: |s| - n <= k < |s| ==> IsSpace(s[k])
    ensures n < |s| ==> !IsSpace(s[|s| - 1 - n])
  {
    if s == [] || !IsSpace(s[|s| - 1]) then 0
    else 1 + TrailingSpaces(s[..|s| - 1])
  }

  /** `s` with the white space cut from both ends, and nothing else cut:
      `r` sits at some offset `i` of `s`, with only white space before and
      after it, and neither starts nor ends with white space. */
  predicate TrimmedOf(s: string, r: string)
  {
    && (r == [] || (!IsSpace(r[0]) && !IsSpace(r[|r| - 1])))
    && exists i :: 0 <= i <= |s| && TrimmedAt(s, r, i)
  }

  predicate TrimmedAt(s: string, r: string, i: int)
  {
    && 0 <= i <= |s| - |r| && s[i..i + |r|] == r
    && (forall k :: 0 <= k < i ==> IsSpace(s[k]))
    && (forall k :: i + |r| <= k < |s| ==> IsSpace(s[k]))
  }

  /** `String.prototype.trim`. */
  function Trim(s: string): (r: string)
    ensures TrimmedOf(s, r)
  {
    var a := LeadingSpaces(s);
    if a == |s| then
      assert TrimmedAt(s, [], 0);
      []
    else
      var b := TrailingSpaces(s);
      assert a < |s| - b;
      var r := s[a..|s| - b];
      assert r[0] == s[a] && r[|r| - 1] == s[|s| - 1 - b];
      assert TrimmedAt(s, r, a);
      r
  }

  /** A string trims to nothing exactly when it is all white space. */
  lemma BlankIffAllSpace(s: string)
    ensures Trim(s) == [] <==> AllSpace(s)
  {
    var r := Trim(s);
    var i :| 0 <= i <= |s| && TrimmedAt(s, r, i);
    if r != [] {
      assert s[i..i + |r|][0] == s[i];
      assert !IsSpace(s[i]);
    }
  }

  /** Trimming a trimmed string changes nothing. */
  lemma TrimIdempotent(s: string)
    ensures Trim(Trim(s)) == Trim(s)
  {
    var r := Trim(s);
    if r != [] {
      assert LeadingSpaces(r) == 0;
      assert TrailingSpaces(r) == 0;
      assert r[0..|r|] == r;
    }
  }

  /** `selectedDate || null`: the empty string is falsy. */
  function DateOrNull(d: string): (r: Option<string>)
    ensures r.None? <==> d == ""
    ensures r.Some? ==> r.value == d
  {
    if d == "" then None else Some(d)
  }

  /** The priority button: `priority === 'LOW' ? 'HIGH' : 'LOW'`. */
  function Toggled(p: string): (q: string)
    ensures q == "HIGH" <==> p == "LOW"
    ensures q == "LOW" || q == "HIGH"
  {
    if p == "LOW" then "HIGH" else "LOW"
  }

  /** On the two priorities the button ever shows, toggling twice is the identity. */
  lemma ToggleTwice(p: string)
    requires p == "LOW" || p == "HIGH"
    ensures Toggled(Toggled(p)) == p
  {
  }

  class TaskInputForm {
    var text: string
    var priority: string
    var selectedDate: string
    var selectedColor: string
    var showDatePicker: bool
    var showColorPicker: bool

    ghost predicate Valid()
      reads this
    {
      priority == "LOW" || priority == "HIGH"
    }

    constructor ()
      ensures Valid()
      ensures text == "" && priority == "LOW" && selectedDate == "" && selectedColor == "yellow"
      ensures !showDatePicker && !showColorPicker
    {
      text, priority, selectedDate, selectedColor := "", "LOW", "", "yellow";
      showDatePicker, showColorPicker := false, false;
    }

    /** The submit button is enabled exactly when the text is not blank. */
    method CanSubmit() returns (enabled: bool)
      ensures enabled <==> !AllSpace(text)
    {
      BlankIffAllSpace(text);
      enabled := Trim(text) != "";
    }

    method TogglePriority()
      requires Valid()
      modifies this
      ensures Valid()
      ensures priority == Toggled(old(priority))
      ensures text == old(text) && selectedDate == old(selectedDate) && selectedColor == old(selectedColor)
      ensures showDatePicker == old(showDatePicker) && showColorPicker == old(showColorPicker)
    {
      priority := Toggled(priority);
    }

    /** `handleSubmit`. Blank text sends nothing and changes nothing.
        Otherwise the trimmed text, the priority, the colour, the date (empty
        as null) and the placement `x`, `y` are sent; the text and date are
        cleared and both pickers closed, while priority and colour stay. */
    method Submit(x: real, y: real) returns (sent: Option<Board.TaskData>)
      requires Valid()
      modifies this
      ensures Valid()
      ensures AllSpace(old(text)) ==>
        && sent == None
        && text == old(text) && priority == old(priority) && selectedDate == old(selectedDate)
        && selectedColor == old(selectedColor)
        && showDatePicker == old(showDatePicker) && showColorPicker == old(showColorPicker)
      ensures !AllSpace(old(text)) ==>
        && sent == Some(Board.TaskData(Trim(old(text)), old(priority), old(selectedColor), DateOrNull(old(selectedDate)), x, y))
        && sent.value.text != ""
        && text == "" && selectedDate == "" && !showDatePicker && !showColorPicker
        && priority == old(priority) && selectedColor == old(selectedColor)
    {
      BlankIffAllSpace(text);
      if Trim(text) == "" {
        return None;
      }
      sent := Some(Board.TaskData(Trim(text), priority, selectedColor, DateOrNull(selectedDate), x, y));
      text := "";
      selectedDate := "";
      showDatePicker := false;
      showColorPicker := false;
    }
  }
}
