/**
 * The nutrition text both windows build from a nutrition entry: the
 * Calories, Carbs and Fiber lines with "N/A" for a missing field, and, in
 * the data-creation window only, the optional Vit C and Potassium lines.
 */
module NutritionText {
  import opened Text
  import opened FruitDetector

  /** `nutri.get(key, 'N/A')`. */
  function FieldOr(n: NutritionRecord, key: string): (v: string)
    ensures key in n ==> v == n[key]
    ensures key !in n ==> v == "N/A"
  {
    if key in n then n[key] else "N/A"
  }

  /** The three lines both windows show. */
  function BaseLines(n: NutritionRecord): (lines: seq<string>)
    ensures |lines| == 3
    ensures lines[0] == "Calories: " + (if "calories" in n then n["calories"] else "N/A")
    ensures lines[1] == "Carbs: " + (if "carbs" in n then n["carbs"] else "N/A")
    ensures lines[2] == "Fiber: " + (if "fiber" in n then n["fiber"] else "N/A")
  {
    ["Calories: " + FieldOr(n, "calories"),
     "Carbs: " + FieldOr(n, "carbs"),
     "Fiber: " + FieldOr(n, "fiber")]
  }

  /** The data-creation window's lines: the base three, then Vit C and Potassium when present. */
  function DetailedLines(n: NutritionRecord): (lines: seq<string>)
    ensures |lines| == 3 + (if "vitamin_c" in n then 1 else 0) + (if "potassium" in n then 1 else 0)
    ensures lines[..3] == BaseLines(n)
  {
    BaseLines(n)
    + (if "vitamin_c" in n then ["Vit C: " + n["vitamin_c"]] else [])
    + (if "potassium" in n then ["Potassium: " + n["potassium"]] else [])
  }

  /** A Vit C (Potassium) line is shown exactly when the entry has `vitamin_c` (`potassium`). */
  lemma DetailedLinesOptionalFields(n: NutritionRecord)
    ensures ("vitamin_c" in n) <==> (exists i :: 0 <= i < |DetailedLines(n)| && StartsWith(DetailedLines(n)[i], "Vit C: "))
    ensures ("potassium" in n) <==> (exists i :: 0 <= i < |DetailedLines(n)| && StartsWith(DetailedLines(n)[i], "Potassium: "))
  {
    var lines := DetailedLines(n);
    forall i | 0 <= i < |lines|
      ensures StartsWith(lines[i], "Vit C: ") ==> "vitamin_c" in n
      ensures StartsWith(lines[i], "Potassium: ") ==> "potassium" in n
    {
      FirstCharOfPrefix(lines[i], "Vit C: ");
      FirstCharOfPrefix(lines[i], "Potassium: ");
    }
    if "vitamin_c" in n {
      assert StartsWith(lines[3], "Vit C: ");
    }
    if "potassium" in n {
      assert StartsWith(lines[|lines| - 1], "Potassium: ");
    }
  }

  /**
   * The terminated detailed lines are the text the data-creation window
   * accumulates: Calories, Carbs and Fiber, then Vit C and Potassium when
   * present, each ending in a newline.
   */
  lemma DetailedTextSpelledOut(n: NutritionRecord)
    ensures Terminated(DetailedLines(n))
      == "Calories: " + FieldOr(n, "calories") + "\n"
         + "Carbs: " + FieldOr(n, "carbs") + "\n"
         + "Fiber: " + FieldOr(n, "fiber") + "\n"
         + (if "vitamin_c" in n then "Vit C: " + n["vitamin_c"] + "\n" else "")
         + (if "potassium" in n then "Potassium: " + n["potassium"] + "\n" else "")
  {
    var base := BaseLines(n);
    var vit := if "vitamin_c" in n then ["Vit C: " + n["vitamin_c"]] else [];
    var pot := if "potassium" in n then ["Potassium: " + n["potassium"]] else [];
    TerminatedAppend(base, vit);
    TerminatedAppend(base + vit, pot);
    BaseTerminated(n);
    TerminatedOptional(vit);
    TerminatedOptional(pot);
  }

  lemma TerminatedOptional(line: seq<string>)
    requires |line| <= 1
    ensures Terminated(line) == if line == [] then "" else line[0] + "\n"
  {
    if line != [] {
      assert line[1..] == [];
    }
  }

  lemma BaseTerminated(n: NutritionRecord)
    ensures Terminated(BaseLines(n))
      == "Calories: " + FieldOr(n, "calories") + "\n"
         + "Carbs: " + FieldOr(n, "carbs") + "\n"
         + "Fiber: " + FieldOr(n, "fiber") + "\n"
  {
    var base := BaseLines(n);
    assert base[1..][1..][1..] == [];
    assert Terminated(base[1..][1..]) == base[2] + "\n";
    assert Terminated(base[1..]) == base[1] + "\n" + (base[2] + "\n");
  }

  /**
   * The production window's text: the three base lines joined by newlines,
   * with no newline after Fiber.
   */
  lemma BaseTextSpelledOut(n: NutritionRecord)
    ensures Join(BaseLines(n), "\n")
      == "Calories: " + FieldOr(n, "calories") + "\n"
         + "Carbs: " + FieldOr(n, "carbs") + "\n"
         + "Fiber: " + FieldOr(n, "fiber")
  {
    var base := BaseLines(n);
    assert Join(base[1..][1..], "\n") == base[2];
    assert Join(base[1..], "\n") == base[1] + "\n" + base[2];
  }

  lemma FirstCharOfPrefix(s: string, prefix: string)
    requires prefix != []
    ensures StartsWith(s, prefix) ==> s != [] && s[0] == prefix[0]
  {
    if StartsWith(s, prefix) {
      assert s[..|prefix|][0] == s[0];
    }
  }
}
