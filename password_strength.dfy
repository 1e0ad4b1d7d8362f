/** The password strength meter of the sign-up form: four requirements,
    a score of 25 points per requirement met, a label and a bar colour. The
    component and the `usePasswordStrength` hook run the same computation,
    which `Evaluate` models once. */
module PasswordStrength {
  import opened Text
  import GeneralFields

  datatype RequirementId = Length | Uppercase | NoSpaces | SpecialChars

  /** One line of the requirement list; `met` is filled in by the evaluation. */
  datatype Requirement = Requirement(id: RequirementId, caption: string, met: bool)

  datatype Strength = Strength(score: int, requirements: seq<Requirement>, isValid: bool)

  /** The characters of `[&@#(*$!@^($]`. */
  predicate IsMeterSymbol(c: char) {
    c == '&' || c == '@' || c == '#' || c == '(' || c == '*' || c == '$' || c == '!' || c == '^'
  }

  /** The `test` of each requirement. */
  predicate Test(id: RequirementId, pwd: string) {
    match id
    case Length => |pwd| >= 8
    case Uppercase => Count(pwd, IsUpper) >= 2
    case NoSpaces => !Any(pwd, IsSpace)
    case SpecialChars => Count(pwd, IsMeterSymbol) >= 2
  }

  /** The requirement list before the evaluation, in display order. */
  const Unmet: seq<Requirement> := [
    Requirement(Length, "At least 8 characters", false),
    Requirement(Uppercase, "At least 2 uppercase letters", false),
    Requirement(NoSpaces, "No spaces allowed", false),
    Requirement(SpecialChars, "At least 2 special characters (&@#(*$!@^($)", false)]

  /** The list after `requirements.forEach(req => req.met = req.test(password))`. */
  function Tested(pwd: string): (r: seq<Requirement>)
    ensures |r| == 4
    ensures forall i :: 0 <= i < 4 ==> r[i] == Unmet[i].(met := Test(Unmet[i].id, pwd))
  {
    seq(4, i requires 0 <= i < 4 => Unmet[i].(met := Test(Unmet[i].id, pwd)))
  }

  /** `requirements.filter(req => req.met).length`. */
  function MetCount(rs: seq<Requirement>): (n: nat)
    ensures n <= |rs|
  {
    if rs == [] then 0
    else MetCount(rs[..|rs| - 1]) + if rs[|rs| - 1].met then 1 else 0
  }

  /** Number of requirements `pwd` meets. */
  function Met(pwd: string): nat {
    MetCount(Tested(pwd))
  }

  /** What the meter shows for `pwd`. */
  function StrengthOf(pwd: string): Strength {
    Strength(25 * Met(pwd), Tested(pwd), Met(pwd) == 4)
  }

  /** The `useMemo` body of the component and of `usePasswordStrength`: the
      requirement records are updated in place, then counted. */
  method Evaluate(password: string) returns (s: Strength)
    ensures s == StrengthOf(password)
  {
    var requirements := new Requirement[4](i requires 0 <= i < 4 => Unmet[i]);
    for i := 0 to 4
      invariant forall j :: 0 <= j < i ==> requirements[j] == Tested(password)[j]
      invariant forall j :: i <= j < 4 ==> requirements[j] == Unmet[j]
    {
      requirements[i] := requirements[i].(met := Test(requirements[i].id, password));
    }
    assert requirements[..] == Tested(password);
    var metCount := 0;
    for i := 0 to 4
      invariant metCount == MetCount(requirements[..i])
    {
      assert requirements[..i + 1][..i] == requirements[..i];
      if requirements[i].met {
        metCount := metCount + 1;
      }
    }
    assert requirements[..4] == requirements[..];
    var score := metCount * 100 / requirements.Length;
    s := Strength(score, requirements[..], metCount == requirements.Length);
  }

  function Point(b: bool): nat {
    if b then 1 else 0
  }

  /** The count of a four-item list, item by item. */
  lemma MetCountOfFour(rs: seq<Requirement>)
    requires |rs| == 4
    ensures MetCount(rs) == Point(rs[0].met) + Point(rs[1].met) + Point(rs[2].met) + Point(rs[3].met)
  {
    assert rs[..3][..2] == rs[..2];
    assert rs[..2][..1] == rs[..1];
    assert rs[..1][..0] == [];
  }

  /** Each requirement contributes one to the count exactly when its test passes. */
  lemma MetIsSumOfTests(pwd: string)
    ensures Met(pwd) == Point(Test(Length, pwd)) + Point(Test(Uppercase, pwd))
      + Point(Test(NoSpaces, pwd)) + Point(Test(SpecialChars, pwd))
  {
    var rs := Tested(pwd);
    MetCountOfFour(rs);
  }

  /** The score counts the requirements met, 25 points each, and the list
      marks exactly the requirements whose test passes. */
  lemma ScoreCountsRequirements(pwd: string)
    ensures StrengthOf(pwd).score in {0, 25, 50, 75, 100}
    ensures StrengthOf(pwd).score == 25 * Met(pwd)
    ensures forall i :: 0 <= i < 4 ==> StrengthOf(pwd).requirements[i].met == Test(StrengthOf(pwd).requirements[i].id, pwd)
  {
    var n := Met(pwd);
    assert n <= 4;
    assert n == 0 || n == 1 || n == 2 || n == 3 || n == 4;
  }

  /** `isValid` holds exactly when all four tests pass, which is exactly a score of 100. */
  lemma ValidIffFullScore(pwd: string)
    ensures StrengthOf(pwd).isValid <==> StrengthOf(pwd).score == 100
    ensures StrengthOf(pwd).isValid <==>
      |pwd| >= 8 && Count(pwd, IsUpper) >= 2 && !Any(pwd, IsSpace) && Count(pwd, IsMeterSymbol) >= 2
  {
    MetIsSumOfTests(pwd);
  }

  /** A score of 0 means every test fails, so it needs whitespace in the
      password (the "No spaces allowed" test fails only then). */
  lemma ZeroScoreNeedsWhitespace(pwd: string)
    ensures StrengthOf(pwd).score == 0 <==>
      !Test(Length, pwd) && !Test(Uppercase, pwd) && !Test(NoSpaces, pwd) && !Test(SpecialChars, pwd)
    ensures StrengthOf(pwd).score == 0 ==> Any(pwd, IsSpace)
  {
    MetIsSumOfTests(pwd);
  }

  /** The empty password meets "No spaces allowed" and so shows 25, Weak. */
  lemma EmptyPasswordIsWeak()
    ensures StrengthOf("").score == 25
    ensures StrengthText(StrengthOf("").score) == "Weak"
    ensures !StrengthOf("").isValid
  {
    MetIsSumOfTests("");
  }

  /** `getStrengthText`. */
  function StrengthText(score: int): string {
    if score == 0 then "Enter password"
    else if score < 50 then "Weak"
    else if score < 75 then "Fair"
    else if score < 100 then "Good"
    else "Strong"
  }

  /** `getStrengthColor`. */
  function StrengthColor(score: int): string {
    if score == 0 then "bg-gray-200"
    else if score < 50 then "bg-red-500"
    else if score < 75 then "bg-yellow-500"
    else if score < 100 then "bg-blue-500"
    else "bg-green-500"
  }

  const Texts: seq<string> := ["Enter password", "Weak", "Fair", "Good", "Strong"]
  const Colors: seq<string> := ["bg-gray-200", "bg-red-500", "bg-yellow-500", "bg-blue-500", "bg-green-500"]

  /** Each number of requirements met has its own label and its own colour,
      and the two thresholds agree: "Strong" and green mean all four met. */
  lemma TextAndColorFollowMet(pwd: string)
    ensures Met(pwd) <= 4
    ensures StrengthText(StrengthOf(pwd).score) == Texts[Met(pwd)]
    ensures StrengthColor(StrengthOf(pwd).score) == Colors[Met(pwd)]
    ensures StrengthText(StrengthOf(pwd).score) == "Strong" <==> StrengthOf(pwd).isValid
  {
  }

  lemma CapitalsOfAccepted() ensures Count("Abcdef1!", IsUpper) == 1 {}

  lemma AcceptedByServer() ensures GeneralFields.IsPassword("Abcdef1!")
  {
    var good := "Abcdef1!";
    assert IsLower(good[1]) && IsUpper(good[0]) && IsDigit(good[6]) && GeneralFields.IsPasswordSymbol(good[7]);
  }

  /** Fewer than two capitals keep the meter below "Strong". */
  lemma FewCapitalsNotStrong(pwd: string)
    requires Count(pwd, IsUpper) < 2
    ensures !StrengthOf(pwd).isValid && StrengthText(StrengthOf(pwd).score) != "Strong"
  {
    MetIsSumOfTests(pwd);
  }

  /** A password the server accepts can be shown as not valid: one capital is enough there. */
  lemma ServerPasswordMeterRejects(pwd: string)
    requires pwd == "Abcdef1!"
    ensures GeneralFields.IsPassword(pwd)
    ensures !StrengthOf(pwd).isValid && StrengthText(StrengthOf(pwd).score) != "Strong"
  {
    AcceptedByServer();
    CapitalsOfAccepted();
    FewCapitalsNotStrong(pwd);
  }

  lemma CapitalsOfExample() ensures Count("AB&&cdef", IsUpper) == 2 {}
  lemma SymbolsOfExample() ensures Count("AB&&cdef", IsMeterSymbol) == 2 {}
  lemma SpacesOfExample() ensures Count("AB&&cdef", IsSpace) == 0 {}
  lemma DigitsOfExample() ensures Count("AB&&cdef", IsDigit) == 0 {}

  /** A password the meter calls Strong can be refused by the server, which wants a digit. */
  lemma StrongPasswordServerRejects(pwd: string)
    requires pwd == "AB&&cdef"
    ensures StrengthOf(pwd).isValid && StrengthText(StrengthOf(pwd).score) == "Strong"
    ensures !GeneralFields.IsPassword(pwd)
  {
    CapitalsOfExample();
    SymbolsOfExample();
    SpacesOfExample();
    DigitsOfExample();
    MetIsSumOfTests(pwd);
  }
}
