/**
 * The onboarding questionnaire (`question-steps.tsx`): four questions shown one
 * at a time, a step counter that never leaves the question list, and a map from
 * step to answer. Multiple-choice answers are toggled in and out of a list,
 * single answers move on at once, and the time question accepts an hour from
 * 0 to 24 when Enter is pressed.
 */
module QuestionSteps {
  import opened Common

  datatype QuestionKind = MultipleChoice | SingleChoice | TimeOfDay

  datatype Question = Question(text: string, options: seq<string>, kind: QuestionKind)

  const Questions: seq<Question> := [
    Question("관심 있는 문화행사 종류는 무엇인가요?",
             ["공연", "전시", "캠핑", "교육/체험", "영화", "스포츠", "축제"], MultipleChoice),
    Question("평소 몇 명이서 가시나요?", ["1인", "2인", "3인", "4인", "5인"], SingleChoice),
    Question("주로 활동하는 여가 시간은?", [], TimeOfDay),
    Question("문화 생활에 사용할 수 있는 금액은?",
             ["1만원↓", "1~3만원", "3~5만원", "5~10만원", "10만원↑"], SingleChoice)
  ]

  /** The suffix the time answer gets: "시" (o'clock). */
  const HourSuffix := "시"

  /** A stored answer: a string, or the list of a multiple-choice question. */
  datatype Answer = Single(text: string) | Multi(items: seq<string>)

  predicate NoDuplicates(s: seq<string>)
  {
    forall i, j :: 0 <= i < j < |s| ==> s[i] != s[j]
  }

  /** A list without duplicates stays so when an absent element is put in front. */
  lemma NoDuplicatesCons(x: string, s: seq<string>)
    requires NoDuplicates(s) && x !in s
    ensures NoDuplicates([x] + s)
  {
    var t := [x] + s;
    forall i, j | 0 <= i < j < |t| ensures t[i] != t[j] {
      assert t[j] == s[j - 1];
      if i > 0 {
        assert t[i] == s[i - 1];
      }
    }
  }

  /** ... or appended at the end. */
  lemma NoDuplicatesSnoc(s: seq<string>, x: string)
    requires NoDuplicates(s) && x !in s
    ensures NoDuplicates(s + [x])
  {
    var t := s + [x];
    forall i, j | 0 <= i < j < |t| ensures t[i] != t[j] {
      assert t[i] == s[i];
      if j < |s| {
        assert t[j] == s[j];
      }
    }
  }

  /** `prev.filter((x) => x !== a)`: `a` is gone and every other element stays. */
  function Without(s: seq<string>, a: string): (r: seq<string>)
    ensures forall x :: x in r <==> x in s && x != a
    ensures |r| <= |s|
  {
    if s == [] then []
    else
      var rest := Without(s[1..], a);
      assert forall x :: x in s <==> x == s[0] || x in s[1..];
      if s[0] == a then rest else [s[0]] + rest
  }

  /** Filtering keeps every other element with its multiplicity. */
  lemma {:induction false} WithoutMultiset(s: seq<string>, a: string)
    ensures multiset(Without(s, a)) == multiset(s)[a := 0]
  {
    if s != [] {
      WithoutMultiset(s[1..], a);
      assert s == [s[0]] + s[1..];
      assert multiset(s) == multiset{s[0]} + multiset(s[1..]);
      if s[0] != a {
        assert Without(s, a) == [s[0]] + Without(s[1..], a);
      }
    }
  }

  /** Filtering an absent element changes nothing. */
  lemma {:induction false} WithoutAbsent(s: seq<string>, a: string)
    requires a !in s
    ensures Without(s, a) == s
  {
    if s != [] {
      assert a !in s[1..];
      WithoutAbsent(s[1..], a);
      assert s == [s[0]] + s[1..];
    }
  }

  /** Filtering keeps a list free of duplicates. */
  lemma {:induction false} WithoutNoDuplicates(s: seq<string>, a: string)
    ensures NoDuplicates(s) ==> NoDuplicates(Without(s, a))
  {
    if s != [] && NoDuplicates(s) {
      var tail := s[1..];
      assert NoDuplicates(tail) by {
        forall i, j | 0 <= i < j < |tail| ensures tail[i] != tail[j] {
          assert tail[i] == s[i + 1] && tail[j] == s[j + 1];
        }
      }
      WithoutNoDuplicates(tail, a);
      if s[0] != a {
        assert s[0] !in tail by {
          forall k | 0 <= k < |tail| ensures tail[k] != s[0] {
            assert tail[k] == s[k + 1];
          }
        }
        NoDuplicatesCons(s[0], Without(tail, a));
      }
    }
  }

  /** `handleMultipleAnswer`'s list computation: remove `a` if present, else append it. */
  function Toggle(prev: seq<string>, a: string): (r: seq<string>)
    ensures a in r <==> a !in prev
    ensures forall x :: x != a ==> (x in r <==> x in prev)
  {
    if a in prev then Without(prev, a) else prev + [a]
  }

  /** Toggling never introduces a duplicate. */
  lemma ToggleNoDuplicates(prev: seq<string>, a: string)
    requires NoDuplicates(prev)
    ensures NoDuplicates(Toggle(prev, a))
  {
    if a in prev {
      WithoutNoDuplicates(prev, a);
    } else {
      NoDuplicatesSnoc(prev, a);
    }
  }

  /** Toggling an absent option twice gives back the same list; toggling a present
      one twice gives back the same options (the option moves to the end). */
  lemma ToggleTwice(prev: seq<string>, a: string)
    requires NoDuplicates(prev)
    ensures a !in prev ==> Toggle(Toggle(prev, a), a) == prev
    ensures a in prev ==> multiset(Toggle(Toggle(prev, a), a)) == multiset(prev)
  {
    if a !in prev {
      WithoutAppended(prev, a);
    } else {
      var once := Without(prev, a);
      WithoutMultiset(prev, a);
      assert multiset(prev)[a] == 1 by {
        var k :| 0 <= k < |prev| && prev[k] == a;
        NoDuplicatesCount(prev, k);
      }
      assert Toggle(once, a) == once + [a];
      assert multiset(once + [a]) == multiset(prev)[a := 0] + multiset{a};
    }
  }

  /** Filtering out an element just appended to a list lacking it gives back the list. */
  lemma {:induction false} WithoutAppended(s: seq<string>, a: string)
    requires a !in s
    ensures Without(s + [a], a) == s
  {
    if s == [] {
      assert Without([a], a) == Without([], a);
    } else {
      var t := s + [a];
      assert t[0] == s[0] && t[1..] == s[1..] + [a];
      assert a !in s[1..];
      WithoutAppended(s[1..], a);
      assert Without(t, a) == [s[0]] + Without(s[1..] + [a], a);
      assert s == [s[0]] + s[1..];
    }
  }

  /** In a list without duplicates each element occurs exactly once. */
  lemma {:induction false} NoDuplicatesCount(s: seq<string>, k: nat)
    requires NoDuplicates(s) && k < |s|
    ensures multiset(s)[s[k]] == 1
  {
    assert s == [s[0]] + s[1..];
    if k == 0 {
      assert s[0] !in s[1..];
    } else {
      NoDuplicatesCount(s[1..], k - 1);
      assert s[1..][k - 1] == s[k];
    }
  }

  /** `isSelected` for option `opt` at `step`: a list containing it, or the same string. */
  predicate IsSelected(answers: map<nat, Answer>, step: nat, opt: string)
  {
    step in answers &&
    match answers[step]
    case Multi(items) => opt in items
    case Single(t) => t == opt
  }

  /** After a single answer, exactly the chosen option shows as selected at
      that step, and the other steps show what they showed before. */
  lemma IsSelectedAfterSingle(answers: map<nat, Answer>, step: nat, a: string, other: nat, opt: string)
    ensures IsSelected(answers[step := Single(a)], step, opt) <==> opt == a
    ensures other != step ==> (IsSelected(answers[step := Single(a)], other, opt) <==> IsSelected(answers, other, opt))
  {
  }

  /** The list `handleMultipleAnswer` starts from: the stored list, or `[]`. */
  function PreviousList(answers: map<nat, Answer>, step: nat): seq<string>
  {
    if step in answers && answers[step].Multi? then answers[step].items else []
  }

  /** The answer map after `handleMultipleAnswer(a)` at `step`. */
  function ToggledAnswers(answers: map<nat, Answer>, step: nat, a: string): map<nat, Answer>
  {
    answers[step := Multi(Toggle(PreviousList(answers, step), a))]
  }

  /** On a step that holds no single answer, toggling `a` flips whether `a` shows
      as selected and leaves every other option and every other step as it was. */
  lemma ToggleFlipsSelection(answers: map<nat, Answer>, step: nat, a: string, opt: string, other: nat)
    requires !(step in answers && answers[step].Single?)
    requires other != step
    ensures IsSelected(ToggledAnswers(answers, step, a), step, a) == !IsSelected(answers, step, a)
    ensures opt != a ==> IsSelected(ToggledAnswers(answers, step, a), step, opt) == IsSelected(answers, step, opt)
    ensures (other in ToggledAnswers(answers, step, a)) == (other in answers)
    ensures other in answers ==> ToggledAnswers(answers, step, a)[other] == answers[other]
  {
  }

  /** `Number(value)` for the text of the hour input: `""` is 0, a string of
      decimal digits its value; any other text is NaN, shown as `None`. */
  function NumberOf(value: string): (r: Option<nat>)
    ensures value == "" ==> r == Some(0)
    ensures r.Some? ==> AllDigits(value)
  {
    if AllDigits(value) then Some(DecimalValue(value)) else None
  }

  /** The time question accepts every hour from 0 to 24, written as `toString` writes it. */
  lemma HourAccepted(h: nat)
    requires h <= 24
    ensures NumberOf(NatToDecimal(h)) == Some(h)
  {
    DecimalRoundTrip(h);
  }

  /** Whether `handleTimeInput` acts: the key is Enter and the number is within [0, 24]. */
  predicate AcceptsTime(key: string, value: string)
  {
    key == "Enter" && NumberOf(value).Some? && NumberOf(value).value <= 24
  }

  class QuestionStepsPage {
    var step: nat
    var answers: map<nat, Answer>

    /** The step indexes a question, and no stored list repeats an option. */
    ghost predicate Valid()
      reads this
    {
      && step < |Questions|
      && forall k :: k in answers && answers[k].Multi? ==> NoDuplicates(answers[k].items)
    }

    constructor ()
      ensures Valid() && step == 0 && answers == map[]
    {
      step, answers := 0, map[];
    }

    /** The question on screen. */
    function Current(): Question
      requires Valid()
      reads this
    {
      Questions[step]
    }

    /** `goNext`: advance unless on the last question. */
    method GoNext()
      requires Valid()
      modifies this`step
      ensures Valid()
      ensures step == if old(step) < |Questions| - 1 then old(step) + 1 else old(step)
    {
      if step < |Questions| - 1 {
        step := step + 1;
      }
    }

    /** `goBack`: go back unless on the first question. */
    method GoBack()
      requires Valid()
      modifies this`step
      ensures Valid()
      ensures step == if old(step) > 0 then old(step) - 1 else 0
    {
      if step > 0 {
        step := step - 1;
      }
    }

    /** `handleSingleAnswer`: record the answer for this step, then `goNext`. */
    method HandleSingleAnswer(a: string)
      requires Valid()
      modifies this
      ensures Valid()
      ensures answers == old(answers)[old(step) := Single(a)]
      ensures step == if old(step) < |Questions| - 1 then old(step) + 1 else old(step)
    {
      answers := answers[step := Single(a)];
      GoNext();
    }

    /** `handleMultipleAnswer`: toggle `a` in this step's list; the step stays. */
    method HandleMultipleAnswer(a: string)
      requires Valid()
      modifies this`answers
      ensures Valid()
      ensures answers == ToggledAnswers(old(answers), step, a)
    {
      var prev := PreviousList(answers, step);
      ToggleNoDuplicates(prev, a);
      var updated := Toggle(prev, a);
      answers := answers[step := Multi(updated)];
    }

    /** `handleTimeInput`: on Enter with an hour in [0, 24], store the text
        followed by "시" and advance; otherwise nothing changes. */
    method HandleTimeInput(key: string, value: string)
      requires Valid()
      modifies this
      ensures Valid()
      ensures AcceptsTime(key, value) ==>
        && answers == old(answers)[old(step) := Single(value + HourSuffix)]
        && step == (if old(step) < |Questions| - 1 then old(step) + 1 else old(step))
      ensures !AcceptsTime(key, value) ==> answers == old(answers) && step == old(step)
    {
      if key == "Enter" {
        var n := NumberOf(value);
        if n.Some? && 0 <= n.value <= 24 {
          answers := answers[step := Single(value + HourSuffix)];
          GoNext();
        }
      }
    }
  }
}
