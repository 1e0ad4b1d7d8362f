/** The one-time-code input of the e-mail confirmation and password reset
    forms: `length` boxes of one digit each over a single string `value`.
    The component is controlled: it reports every new string through
    `onChange`, and the model lets the parent store it at once, so `value`
    below is the string the boxes show. */
module OtpInput {
  import opened Text
  import GeneralFields

  /** The `length` prop's default. */
  const DefaultLength: nat := 6

  /** The keys `handleKeyDown` tells apart. */
  datatype Key = Backspace | ArrowLeft | ArrowRight | OtherKey

  /** The last digit of `s` as a string of at most one character. */
  function LastDigit(s: string): (d: string)
    ensures |d| <= 1 && All(d, IsDigit)
    ensures d == "" <==> !Any(s, IsDigit)
    ensures d != "" ==> d[0] in s
  {
    if s == [] then ""
    else
      var init := s[..|s| - 1];
      assert s == init + [s[|s| - 1]];
      if IsDigit(s[|s| - 1]) then [s[|s| - 1]] else LastDigit(init)
  }

  /** Removing the non-digits commutes with adding a character at the end. */
  lemma {:induction false} DigitsSnoc(s: string, c: char)
    ensures Digits(s + [c]) == Digits(s) + (if IsDigit(c) then [c] else [])
  {
    var tail: string := if IsDigit(c) then [c] else [];
    if s == [] {
      assert s + [c] == [c];
      assert Digits([c]) == tail + Digits([]);
    } else {
      var head: string := if IsDigit(s[0]) then [s[0]] else [];
      assert (s + [c])[0] == s[0];
      assert (s + [c])[1..] == s[1..] + [c];
      DigitsSnoc(s[1..], c);
      assert Digits(s + [c]) == head + (Digits(s[1..]) + tail);
      assert head + (Digits(s[1..]) + tail) == (head + Digits(s[1..])) + tail;
    }
  }

  /** `inputValue.replace(/\D/g, '').slice(-1)` is the last digit of the input. */
  lemma {:induction false} LastDigitIsLastOfDigits(s: string)
    ensures LastDigit(s) == Last(Digits(s))
  {
    if s != [] {
      var init := s[..|s| - 1];
      assert s == init + [s[|s| - 1]];
      DigitsSnoc(init, s[|s| - 1]);
      LastDigitIsLastOfDigits(init);
    }
  }

  /** `value.split('')` as an array grown to at least `size` slots: the
      characters of `value`, then holes, which `join('')` writes as nothing. */
  function Spread(value: string, size: nat): (slots: seq<string>)
    ensures |slots| == if size <= |value| then |value| else size
  {
    seq(if size <= |value| then |value| else size, i requires 0 <= i => if i < |value| then [value[i]] else "")
  }

  /** `join('')`. */
  function Concat(parts: seq<string>): string {
    if parts == [] then "" else Concat(parts[..|parts| - 1]) + parts[|parts| - 1]
  }

  lemma {:induction false} ConcatAppend(a: seq<string>, b: seq<string>)
    ensures Concat(a + b) == Concat(a) + Concat(b)
  {
    if b != [] {
      assert (a + b)[..|a + b| - 1] == a + b[..|b| - 1];
      assert (a + b)[|a + b| - 1] == b[|b| - 1];
      ConcatAppend(a, b[..|b| - 1]);
    } else {
      assert a + b == a;
    }
  }

  /** Slots holding one character each join back into those characters. */
  lemma {:induction false} ConcatChars(parts: seq<string>, s: string)
    requires |parts| == |s| && forall i :: 0 <= i < |s| ==> parts[i] == [s[i]]
    ensures Concat(parts) == s
  {
    if s != [] {
      ConcatChars(parts[..|parts| - 1], s[..|s| - 1]);
    }
  }

  /** Holes join into nothing. */
  lemma {:induction false} ConcatHoles(parts: seq<string>)
    requires forall i :: 0 <= i < |parts| ==> parts[i] == ""
    ensures Concat(parts) == ""
  {
    if parts != [] {
      ConcatHoles(parts[..|parts| - 1]);
    }
  }

  /** The string after `newValue[index] = piece` on `value.split('')` and `join('')`. */
  function Assigned(value: string, index: nat, piece: string): string {
    Concat(Spread(value, index + 1)[index := piece])
  }

  /** The slots past the string join into nothing. */
  lemma SpreadHoles(value: string, size: nat, lo: nat, hi: nat)
    requires |value| <= lo <= hi <= |Spread(value, size)|
    ensures Concat(Spread(value, size)[lo..hi]) == ""
  {
    var slots := Spread(value, size);
    ConcatHoles(slots[lo..hi]);
  }

  /** Slots holding the characters of `value` and then holes join into `value`. */
  lemma ConcatCharsThenHoles(parts: seq<string>, value: string, n: nat)
    requires |value| <= n <= |parts|
    requires forall i :: 0 <= i < |value| ==> parts[i] == [value[i]]
    requires forall i :: |value| <= i < n ==> parts[i] == ""
    ensures Concat(parts[..n]) == value
  {
    var chars, holes := parts[..|value|], parts[|value|..n];
    assert parts[..n] == chars + holes;
    ConcatAppend(chars, holes);
    ConcatChars(chars, value);
    ConcatHoles(holes);
  }

  /** Before a slot past the end lie the characters and then holes. */
  lemma BeforePastEnd(value: string, index: nat)
    requires |value| <= index
    ensures Concat(Spread(value, index + 1)[..index]) == value
  {
    ConcatCharsThenHoles(Spread(value, index + 1), value, index);
  }

  /** The slots before the assigned one, the piece, and the slots after it. */
  lemma AssignedInThree(value: string, index: nat, piece: string)
    ensures var slots := Spread(value, index + 1);
      Assigned(value, index, piece) == Concat(slots[..index]) + piece + Concat(slots[index + 1..])
  {
    var spread := Spread(value, index + 1);
    var slots := spread[index := piece];
    assert slots == spread[..index] + [piece] + spread[index + 1..];
    ConcatAppend(spread[..index] + [piece], spread[index + 1..]);
    ConcatAppend(spread[..index], [piece]);
    assert Concat([piece]) == piece by {
      assert [piece][..0] == [];
    }
  }

  /** Inside the string the piece replaces one character. */
  lemma AssignedInside(value: string, index: nat, piece: string)
    requires index < |value|
    ensures Assigned(value, index, piece) == value[..index] + piece + value[index + 1..]
  {
    AssignedInThree(value, index, piece);
    var slots := Spread(value, index + 1);
    ConcatChars(slots[..index], value[..index]);
    ConcatChars(slots[index + 1..], value[index + 1..]);
  }

  /** Past the end of the string the holes in between vanish and the piece
      lands right after the last character. */
  lemma AssignedPastEnd(value: string, index: nat, piece: string)
    requires |value| <= index
    ensures Assigned(value, index, piece) == value + piece
  {
    AssignedInThree(value, index, piece);
    BeforePastEnd(value, index);
    SpreadHoles(value, index + 1, index + 1, index + 1);
  }

  lemma AssignedMeaning(value: string, index: nat, piece: string)
    ensures index < |value| ==> Assigned(value, index, piece) == value[..index] + piece + value[index + 1..]
    ensures |value| <= index ==> Assigned(value, index, piece) == value + piece
  {
    if index < |value| {
      AssignedInside(value, index, piece);
    } else {
      AssignedPastEnd(value, index, piece);
    }
  }

  /** `value.split('')`, `newValue[index] = piece`, `newValue.join('')`, on an array. */
  method SetSlot(value: string, index: nat, piece: string) returns (updated: string)
    ensures updated == Assigned(value, index, piece)
  {
    var size := if index < |value| then |value| else index + 1;
    var newValue := new string[size](_ => "");
    for i := 0 to |value|
      invariant forall j :: 0 <= j < i ==> newValue[j] == [value[j]]
      invariant forall j :: i <= j < size ==> newValue[j] == ""
    {
      newValue[i] := [value[i]];
    }
    assert newValue[..] == Spread(value, index + 1);
    newValue[index] := piece;
    assert newValue[..] == Spread(value, index + 1)[index := piece];
    updated := "";
    for i := 0 to size
      invariant updated == Concat(newValue[..i])
    {
      assert newValue[..i + 1][..i] == newValue[..i];
      updated := updated + newValue[i];
    }
    assert newValue[..size] == newValue[..];
  }

  /** What the boxes show, where the focus ring is, and the strings handed
      to `onComplete` so far, oldest first. */
  datatype Otp = Otp(value: string, activeIndex: int, completed: seq<string>)

  /** `handleChange(index, inputValue)`; `notify` says whether `onComplete` was passed. */
  function ChangeStep(st: Otp, length: nat, notify: bool, index: nat, input: string): Otp {
    var digit := LastDigit(input);
    var updated := Assigned(st.value, index, digit);
    Otp(updated,
        if digit != "" && index + 1 < length then index + 1 else st.activeIndex,
        if |updated| == length && notify then st.completed + [updated] else st.completed)
  }

  /** `handleKeyDown(index, e)`. `!value[index]` holds exactly when the box
      is past the end of the string. */
  function KeyDownStep(st: Otp, length: nat, index: nat, key: Key): Otp {
    match key
    case Backspace =>
      if |st.value| <= index && index > 0 then st.(activeIndex := index - 1)
      else st.(value := Assigned(st.value, index, ""))
    case ArrowLeft => if index > 0 then st.(activeIndex := index - 1) else st
    case ArrowRight => if index + 1 < length then st.(activeIndex := index + 1) else st
    case OtherKey => st
  }

  /** `handleFocus(index)`. */
  function FocusStep(st: Otp, index: nat): Otp {
    st.(activeIndex := index)
  }

  /** `handlePaste`: the digits of the pasted text, cut to `length`. */
  function PasteStep(st: Otp, length: nat, notify: bool, text: string): Otp
    requires length >= 1
  {
    var pasted := Prefix(Digits(text), length);
    Otp(pasted,
        if |pasted| < length - 1 then |pasted| else length - 1,
        if |pasted| == length && notify then st.completed + [pasted] else st.completed)
  }

  /** What the boxes can show once the component has handled an event: at
      most `length` digits, and the focus on one of the boxes. */
  predicate Settled(st: Otp, length: nat) {
    |st.value| <= length && All(st.value, IsDigit) && 0 <= st.activeIndex < length
  }

  lemma AssignedDigits(value: string, index: nat, piece: string)
    requires All(value, IsDigit) && All(piece, IsDigit) && |piece| <= 1
    ensures All(Assigned(value, index, piece), IsDigit)
    ensures |Assigned(value, index, piece)| <= if index < |value| then |value| else |value| + 1
  {
    AssignedMeaning(value, index, piece);
  }

  /** Every handler keeps the boxes settled. */
  lemma HandlersKeepSettled(st: Otp, length: nat, notify: bool, index: nat, input: string, key: Key)
    requires Settled(st, length) && index < length
    ensures Settled(ChangeStep(st, length, notify, index, input), length)
    ensures Settled(KeyDownStep(st, length, index, key), length)
    ensures Settled(FocusStep(st, index), length)
    ensures Settled(PasteStep(st, length, notify, input), length)
  {
    AssignedDigits(st.value, index, LastDigit(input));
    AssignedDigits(st.value, index, "");
  }

  /** A code reaches `onComplete` only when every box holds a digit; with the
      default six boxes it passes the server's `otp` rule. */
  lemma CompletedCodesAreOtps(st: Otp, notify: bool, index: nat, input: string)
    requires Settled(st, DefaultLength) && index < DefaultLength
    ensures forall c :: c in ChangeStep(st, DefaultLength, notify, index, input).completed ==>
      c in st.completed || GeneralFields.IsOtp(c)
    ensures forall c :: c in PasteStep(st, DefaultLength, notify, input).completed ==>
      c in st.completed || GeneralFields.IsOtp(c)
  {
    AssignedDigits(st.value, index, LastDigit(input));
  }

  /** A typed digit replaces the digit in its box and leaves the others. */
  lemma TypingReplacesOneSlot(st: Otp, length: nat, notify: bool, index: nat, input: string)
    requires index < |st.value| && Any(input, IsDigit)
    ensures var v := ChangeStep(st, length, notify, index, input).value;
      |v| == |st.value| && v[index] == LastDigit(input)[0]
      && forall j :: 0 <= j < |v| && j != index ==> v[j] == st.value[j]
  {
    AssignedMeaning(st.value, index, LastDigit(input));
  }

  /** A digit typed into a box past the end of the string lands in the first
      empty box instead, so the box typed into stays empty. */
  lemma TypingPastEndAppends(st: Otp, length: nat, notify: bool, index: nat, input: string)
    requires |st.value| < index && Any(input, IsDigit)
    ensures var v := ChangeStep(st, length, notify, index, input).value;
      |v| == |st.value| + 1 <= index && v[|st.value|] == LastDigit(input)[0] && v[..|st.value|] == st.value
  {
    AssignedMeaning(st.value, index, LastDigit(input));
  }

  /** A change whose input holds no digit removes the box's character and
      moves every later digit one box to the left, as Backspace on a filled
      box does. */
  lemma ClearingShiftsLeft(st: Otp, length: nat, notify: bool, index: nat, input: string)
    requires index < |st.value| && !Any(input, IsDigit)
    ensures ChangeStep(st, length, notify, index, input).value == KeyDownStep(st, length, index, Backspace).value
    ensures var v := KeyDownStep(st, length, index, Backspace).value;
      |v| == |st.value| - 1
      && (forall j :: 0 <= j < index ==> v[j] == st.value[j])
      && (forall j :: index <= j < |v| ==> v[j] == st.value[j + 1])
  {
    AssignedMeaning(st.value, index, "");
  }

  /** Backspace on an empty box moves the focus left and changes nothing else. */
  lemma BackspaceOnEmptyBoxMovesLeft(st: Otp, length: nat, index: nat)
    requires |st.value| <= index && 0 < index
    ensures KeyDownStep(st, length, index, Backspace) == st.(activeIndex := index - 1)
  {
  }

  /** The arrow keys move the focus by one box and never off the row. */
  lemma ArrowKeysStayInRange(st: Otp, length: nat, index: nat)
    requires index < length && 0 <= st.activeIndex < length
    ensures var l := KeyDownStep(st, length, index, ArrowLeft);
      l.value == st.value && 0 <= l.activeIndex < length
      && (l.activeIndex == index - 1 || (index == 0 && l == st))
    ensures var r := KeyDownStep(st, length, index, ArrowRight);
      r.value == st.value && (r.activeIndex == index + 1 < length || (index == length - 1 && r == st))
  {
  }

  /** A paste completes the code exactly when the text holds at least
      `length` digits; the first `length` of them become the value. */
  lemma PasteCompleteIff(st: Otp, length: nat, text: string)
    requires length >= 1
    ensures var r := PasteStep(st, length, true, text);
      (r.completed == st.completed + [r.value] <==> |Digits(text)| >= length)
      && (r.completed == st.completed <==> |Digits(text)| < length)
      && r.value <= Digits(text) && All(r.value, IsDigit)
  {
    var r := PasteStep(st, length, true, text);
    assert r.completed != st.completed ==> |r.completed| == |st.completed| + 1;
  }

  /** The component, with the parent's stored `value`. */
  class OtpBoxes {
    const length: nat
    const notify: bool
    var value: string
    var activeIndex: int
    var completed: seq<string>

    function State(): Otp
      reads this
    {
      Otp(value, activeIndex, completed)
    }

    constructor(length: nat, value: string, notify: bool)
      ensures this.length == length && this.notify == notify
      ensures State() == Otp(value, 0, [])
    {
      this.length := length;
      this.notify := notify;
      this.value := value;
      activeIndex := 0;
      completed := [];
    }

    method HandleChange(index: nat, inputValue: string)
      requires index < length
      modifies this
      ensures State() == ChangeStep(old(State()), length, notify, index, inputValue)
    {
      var digit := Last(Digits(inputValue));
      LastDigitIsLastOfDigits(inputValue);
      var updatedValue := SetSlot(value, index, digit);
      value := updatedValue;
      if digit != "" && index + 1 < length {
        activeIndex := index + 1;
      }
      if |updatedValue| == length && notify {
        completed := completed + [updatedValue];
      }
    }

    method HandleKeyDown(index: nat, key: Key)
      requires index < length
      modifies this
      ensures State() == KeyDownStep(old(State()), length, index, key)
    {
      if key == Backspace {
        if |value| <= index && index > 0 {
          activeIndex := index - 1;
        } else {
          var cleared := SetSlot(value, index, "");
          value := cleared;
        }
      } else if key == ArrowLeft && index > 0 {
        activeIndex := index - 1;
      } else if key == ArrowRight && index + 1 < length {
        activeIndex := index + 1;
      }
    }

    method HandleFocus(index: nat)
      requires index < length
      modifies this
      ensures State() == FocusStep(old(State()), index)
    {
      activeIndex := index;
    }

    method HandlePaste(text: string)
      requires length >= 1
      modifies this
      ensures State() == PasteStep(old(State()), length, notify, text)
    {
      var pastedData := Prefix(Digits(text), length);
      value := pastedData;
      activeIndex := if |pastedData| < length - 1 then |pastedData| else length - 1;
      if |pastedData| == length && notify {
        completed := completed + [pastedData];
      }
    }
  }
}
