/**
 * The scientific calculator: a keypad that edits an expression, evaluates it on '=', keeps a
 * history of the last 20 distinct evaluations, a memory register and the last answer, and an
 * angle mode for the trigonometric functions.
 *
 * Evaluation (mathjs, with its rewriting of the trigonometric functions to the angle mode and its
 * 12-digit formatting) is the parameter evaluate, which gives the result text or "Error". Reading
 * a result as a number is toNumber (None for NaN), writing the memory as text is numberText, and
 * the random number's text is the parameter randomText.
 */
module ScientificCalculator {
  import opened Wrappers
  import opened Strings

  datatype AngleMode = Deg | Rad

  datatype HistoryItem = HistoryItem(expression: string, result: string)

  /** The whole state of the calculator; memory None stands for NaN. */
  datatype State = State(
    expression: string,
    result: string,
    history: seq<HistoryItem>,
    angleMode: AngleMode,
    memory: Option<real>,
    lastAnswer: string)

  const MaxHistory := 20
  const ErrorText := "Error"

  /** The texts of pi.toString() and e.toString(). */
  const PiText := "3.141592653589793"
  const EText := "2.718281828459045"

  /** The keypad, row by row. */
  const Buttons: seq<seq<string>> := [
    ["sin", "cos", "tan", "Deg", "Rad", "7", "8", "9", "+", "Back"],
    ["sin⁻¹", "cos⁻¹", "tan⁻¹", "π", "e", "4", "5", "6", "−", "Ans"],
    ["xʸ", "x³", "x²", "eˣ", "10ˣ", "1", "2", "3", "×", "M+"],
    ["y√x", "³√x", "√x", "ln", "log", "0", ".", "EXP", "/", "M-"],
    ["(", ")", "1/x", "%", "n!", "±", "RND", "AC", "=", "MR"]]

  /** The keys that do not append to the expression. */
  const ControlKeys := {"Deg", "Rad", "AC", "Back", "=", "M+", "M-", "±"}

  /** The keys that append a token other than their label. */
  const FunctionKeys := {"sin", "cos", "tan", "sin⁻¹", "cos⁻¹", "tan⁻¹", "ln", "log", "xʸ", "x²", "x³", "eˣ",
                         "10ˣ", "√x", "³√x", "y√x", "1/x", "n!", "EXP"}

  /**
   * The text a key with a fixed meaning appends: a function name and its opening parenthesis, an
   * operator, or, for any other key, the key's own label.
   */
  function KeyToken(key: string): (t: string)
    ensures key == "sin⁻¹" ==> t == "asin("
    ensures key == "ln" ==> t == "log("
    ensures key == "log" ==> t == "log10("
    ensures key == "x²" ==> t == "^2"
    ensures key == "1/x" ==> t == "1/("
    ensures key !in FunctionKeys ==> t == key
  {
    if key == "sin" || key == "cos" || key == "tan" then key + "("
    else if key == "sin⁻¹" then "asin("
    else if key == "cos⁻¹" then "acos("
    else if key == "tan⁻¹" then "atan("
    else if key == "ln" then "log("
    else if key == "log" then "log10("
    else if key == "xʸ" then "^"
    else if key == "x²" then "^2"
    else if key == "x³" then "^3"
    else if key == "eˣ" then "e^"
    else if key == "10ˣ" then "10^"
    else if key == "√x" then "sqrt("
    else if key == "³√x" then "cbrt("
    else if key == "y√x" then "root("
    else if key == "1/x" then "1/("
    else if key == "n!" then "!"
    else if key == "EXP" then "E"
    else key
  }

  /** The memory as MR appends it: NaN for a memory that is not a number. */
  function MemoryText(memory: Option<real>, numberText: real -> string): string
  {
    if memory.Some? then numberText(memory.value) else "NaN"
  }

  /**
   * The text a key appends to the expression, or None for a control key: the last answer for
   * "Ans", the memory for "MR", the constants for "π" and "e", a random number for "RND", and the
   * key's token otherwise.
   */
  function Appended(key: string, lastAnswer: string, memory: Option<real>, randomText: string, numberText: real -> string): (r: Option<string>)
    ensures r.None? <==> key in ControlKeys
    ensures key == "Ans" ==> r == Some(lastAnswer)
    ensures key == "MR" ==> r == Some(MemoryText(memory, numberText))
    ensures key !in ControlKeys && key !in {"Ans", "MR", "π", "e", "RND"} ==> r == Some(KeyToken(key))
  {
    if key in ControlKeys then None
    else if key == "Ans" then Some(lastAnswer)
    else if key == "MR" then Some(MemoryText(memory, numberText))
    else if key == "π" then Some(PiText)
    else if key == "e" then Some(EText)
    else if key == "RND" then Some(randomText)
    else Some(KeyToken(key))
  }

  /** The '±' key: a leading '-' is dropped, otherwise one is added; empty text stays empty. */
  function ToggleSign(s: string): (t: string)
    ensures s == "" ==> t == ""
    ensures s != "" && s[0] == '-' ==> t == s[1..]
    ensures s != "" && s[0] != '-' ==> t == "-" + s
  {
    if s == "" then s else if s[0] == '-' then s[1..] else "-" + s
  }

  /**
   * Pressing '±' twice restores the expression, except for the lone "-", which the first press
   * empties and the second leaves empty, and for text starting "--", which loses both signs.
   */
  lemma ToggleSignTwice(s: string)
    ensures ToggleSign(ToggleSign(s)) == s <==> !(|s| >= 1 && s[0] == '-' && (|s| == 1 || s[1] == '-'))
  {
    if s == "-" {
      assert ToggleSign(s) == "";
    } else if s != "" && s[0] == '-' {
      assert s == "-" + s[1..];
      if s[1] == '-' {
        assert |ToggleSign(ToggleSign(s))| == |s| - 2;
      }
    } else if s != "" {
      assert ("-" + s)[1..] == s;
    }
  }

  /** The 'Back' key: the last character dropped; empty text stays empty. */
  function DropLast(s: string): (t: string)
    ensures s == "" ==> t == ""
    ensures s != "" ==> |t| == |s| - 1 && t + [s[|s| - 1]] == s
  {
    if s == "" then s else s[..|s| - 1]
  }

  /** Number(result || 0): an empty result counts as 0. */
  function ResultNumber(result: string, toNumber: string -> Option<real>): Option<real>
  {
    if result == "" then Some(0.0) else toNumber(result)
  }

  /** The memory after 'M+' (add) or 'M-': NaN in either operand makes NaN. */
  function MemoryAfter(memory: Option<real>, n: Option<real>, add: bool): (m: Option<real>)
    ensures m.Some? <==> memory.Some? && n.Some?
    ensures m.Some? && add ==> m.value == memory.value + n.value
    ensures m.Some? && !add ==> m.value == memory.value - n.value
  {
    if memory.None? || n.None? then None
    else if add then Some(memory.value + n.value) else Some(memory.value - n.value)
  }

  /** 'M+' then 'M-' on the same result leaves a numeric memory as it was, unless the result is not a number. */
  lemma MemoryAddThenSubtract(memory: Option<real>, n: Option<real>)
    ensures memory.Some? && n.Some? ==> MemoryAfter(MemoryAfter(memory, n, true), n, false) == memory
    ensures n.None? ==> MemoryAfter(MemoryAfter(memory, n, true), n, false).None?
  {
  }

  /** An evaluation is recorded when it succeeded, the expression is not blank and it differs from the latest entry. */
  predicate Recordable(history: seq<HistoryItem>, expression: string, evalResult: string)
  {
    evalResult != ErrorText && Trim(expression) != ""
    && (|history| == 0 || history[0].expression != expression || history[0].result != evalResult)
  }

  /** The history after an evaluation: the new entry first and the list cut to 20, or as it was. */
  function Record(history: seq<HistoryItem>, expression: string, evalResult: string): (h: seq<HistoryItem>)
    ensures Recordable(history, expression, evalResult) ==>
      && |h| == (if |history| < MaxHistory then |history| + 1 else MaxHistory)
      && h[0] == HistoryItem(expression, evalResult)
      && h[1..] == history[..|h| - 1]
    ensures !Recordable(history, expression, evalResult) ==> h == history
  {
    if Recordable(history, expression, evalResult) then
      var h := [HistoryItem(expression, evalResult)] + history;
      if |h| <= MaxHistory then h else h[..MaxHistory]
    else history
  }

  /**
   * What the history keeps: at most 20 entries, none of them an error or a blank expression, and
   * no entry the same as the one after it.
   */
  predicate GoodHistory(history: seq<HistoryItem>)
  {
    && |history| <= MaxHistory
    && (forall i :: 0 <= i < |history| ==> history[i].result != ErrorText && Trim(history[i].expression) != "")
    && (forall i :: 0 <= i < |history| - 1 ==> history[i] != history[i + 1])
  }

  /** Recording an evaluation keeps the history good. */
  lemma RecordKeepsGood(history: seq<HistoryItem>, expression: string, evalResult: string)
    requires GoodHistory(history)
    ensures GoodHistory(Record(history, expression, evalResult))
  {
    var h := Record(history, expression, evalResult);
    if Recordable(history, expression, evalResult) {
      forall i | 0 <= i < |h|
        ensures h[i].result != ErrorText && Trim(h[i].expression) != ""
      {
        if i > 0 {
          assert h[i] == h[1..][i - 1] == history[i - 1];
        }
      }
      forall i | 0 <= i < |h| - 1
        ensures h[i] != h[i + 1]
      {
        if i > 0 {
          assert h[i] == h[1..][i - 1] == history[i - 1];
          assert h[i + 1] == h[1..][i] == history[i];
        } else {
          assert h[1] == h[1..][0] == history[0];
        }
      }
    }
  }

  class Calculator {
    var expression: string
    var result: string
    var history: seq<HistoryItem>
    var angleMode: AngleMode
    var memory: Option<real>
    var lastAnswer: string

    function Snapshot(): State
      reads this
    {
      State(expression, result, history, angleMode, memory, lastAnswer)
    }

    ghost predicate Valid()
      reads this
    {
      GoodHistory(history)
    }

    /** The initial state: nothing entered, no history, degrees, memory 0. */
    constructor()
      ensures Valid()
      ensures Snapshot() == State("", "", [], Deg, Some(0.0), "")
    {
      expression := "";
      result := "";
      history := [];
      angleMode := Deg;
      memory := Some(0.0);
      lastAnswer := "";
    }

    /**
     * handleClick: 'Deg' and 'Rad' set the angle mode; 'AC' clears the expression and the result;
     * 'Back' drops the last character; '=' evaluates, shows and remembers the result and records
     * it in the history; 'M+' and 'M-' add the result to or subtract it from the memory; '±'
     * toggles the sign; every other key appends its text. Nothing else changes.
     */
    method Click(
      key: string, evaluate: (string, AngleMode) -> string, randomText: string,
      numberText: real -> string, toNumber: string -> Option<real>)
      requires Valid()
      modifies this
      ensures Valid()
      ensures key == "Deg" ==> Snapshot() == old(Snapshot()).(angleMode := Deg)
      ensures key == "Rad" ==> Snapshot() == old(Snapshot()).(angleMode := Rad)
      ensures key == "AC" ==> Snapshot() == old(Snapshot()).(expression := "", result := "")
      ensures key == "Back" ==> Snapshot() == old(Snapshot()).(expression := DropLast(old(expression)))
      ensures key == "=" ==>
        var r := evaluate(old(expression), old(angleMode));
        Snapshot() == old(Snapshot()).(result := r, lastAnswer := r, history := Record(old(history), old(expression), r))
      ensures key == "M+" ==>
        Snapshot() == old(Snapshot()).(memory := MemoryAfter(old(memory), ResultNumber(old(result), toNumber), true))
      ensures key == "M-" ==>
        Snapshot() == old(Snapshot()).(memory := MemoryAfter(old(memory), ResultNumber(old(result), toNumber), false))
      ensures key == "±" ==> Snapshot() == old(Snapshot()).(expression := ToggleSign(old(expression)))
      ensures key !in ControlKeys ==>
        Snapshot() == old(Snapshot()).(expression := old(expression)
          + Appended(key, old(lastAnswer), old(memory), randomText, numberText).value)
    {
      if key == "Deg" {
        angleMode := Deg;
      } else if key == "Rad" {
        angleMode := Rad;
      } else if key == "AC" {
        expression := "";
        result := "";
      } else if key == "Back" {
        expression := DropLast(expression);
      } else if key == "=" {
        var evalResult := evaluate(expression, angleMode);
        result := evalResult;
        lastAnswer := evalResult;
        RecordKeepsGood(history, expression, evalResult);
        history := Record(history, expression, evalResult);
      } else if key == "Ans" {
        expression := expression + lastAnswer;
      } else if key == "MR" {
        expression := expression + MemoryText(memory, numberText);
      } else if key == "M+" {
        memory := MemoryAfter(memory, ResultNumber(result, toNumber), true);
      } else if key == "M-" {
        memory := MemoryAfter(memory, ResultNumber(result, toNumber), false);
      } else if key == "π" {
        expression := expression + PiText;
      } else if key == "e" {
        expression := expression + EText;
      } else if key == "±" {
        expression := ToggleSign(expression);
      } else if key == "RND" {
        expression := expression + randomText;
      } else {
        expression := expression + KeyToken(key);
      }
    }

    /** handleClearHistory: the history emptied, nothing else changed. */
    method ClearHistory()
      modifies this
      ensures Valid()
      ensures Snapshot() == old(Snapshot()).(history := [])
    {
      history := [];
    }
  }
}
