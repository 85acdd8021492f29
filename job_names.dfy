/** Naming of the job definition resource that a job step needs: the step
    name in CamelCase followed by "JobDef" (`do_the_other` becomes
    `DoTheOtherJobDef`). */
module JobNames {

  const JobDefSuffix := "JobDef"

  function Upper(c: char): char
  {
    if 'a' <= c <= 'z' then (c as int - 'a' as int + 'A' as int) as char else c
  }

  function Lower(c: char): char
  {
    if 'A' <= c <= 'Z' then (c as int - 'A' as int + 'a' as int) as char else c
  }

  /** Drops every underscore and upper-cases the first character of each
      underscore-separated word; `capitalize` says whether the next kept
      character starts a word. */
  function CamelCase(s: string, capitalize: bool): string
  {
    if s == [] then []
    else if s[0] == '_' then CamelCase(s[1..], true)
    else [if capitalize then Upper(s[0]) else s[0]] + CamelCase(s[1..], false)
  }

  /** Name of the job definition resource emitted for job step `step`. */
  function JobDefName(step: string): string
  {
    CamelCase(step, true) + JobDefSuffix
  }

  // Reference definitions used to state what CamelCase does.

  function Lowered(s: string): string
  {
    if s == [] then [] else [Lower(s[0])] + Lowered(s[1..])
  }

  function WithoutUnderscores(s: string): string
  {
    if s == [] then []
    else if s[0] == '_' then WithoutUnderscores(s[1..])
    else [s[0]] + WithoutUnderscores(s[1..])
  }

  /** Words start where the step name starts and after each underscore. */
  predicate StartsWord(s: string, i: nat)
    requires i < |s|
  {
    s[i] != '_' && (i == 0 || s[i - 1] == '_')
  }

  /** Character `i` of `s` continues a word: neither it nor the character
      before it is an underscore. */
  predicate InsideWord(s: string, i: nat)
    requires i < |s|
  {
    0 < i && s[i] != '_' && s[i - 1] != '_'
  }

  lemma LowerUpper(c: char)
    ensures Lower(Upper(c)) == Lower(c)
  {
  }

  lemma {:induction false} LoweredAppend(a: string, b: string)
    ensures Lowered(a + b) == Lowered(a) + Lowered(b)
  {
    if a == [] {
      assert a + b == b;
    } else {
      assert (a + b)[1..] == a[1..] + b;
      LoweredAppend(a[1..], b);
    }
  }

  /** CamelCase only changes letter case and removes underscores: ignoring
      case, it is the name with its underscores removed; and no underscore
      is left. */
  lemma {:induction false} CamelCaseRecasesAndDropsUnderscores(s: string, capitalize: bool)
    ensures Lowered(CamelCase(s, capitalize)) == Lowered(WithoutUnderscores(s))
    ensures '_' !in CamelCase(s, capitalize)
    ensures |CamelCase(s, capitalize)| == |WithoutUnderscores(s)|
  {
    if s != [] {
      CamelCaseRecasesAndDropsUnderscores(s[1..], s[0] == '_' || (capitalize && s[0] != '_'));
      CamelCaseRecasesAndDropsUnderscores(s[1..], false);
      CamelCaseRecasesAndDropsUnderscores(s[1..], true);
      if s[0] != '_' {
        var c := if capitalize then Upper(s[0]) else s[0];
        LowerUpper(s[0]);
        LoweredAppend([c], CamelCase(s[1..], false));
        LoweredAppend([s[0]], WithoutUnderscores(s[1..]));
        assert Upper(s[0]) != '_';
      }
    }
  }

  /** The character that starts a word comes out upper-cased: the k-th kept
      character of `s` is `Upper` of it when it starts a word. */
  lemma {:induction false} CamelCaseCapitalizesWordStarts(s: string, i: nat)
    requires i < |s| && StartsWord(s, i)
    ensures var kept := |WithoutUnderscores(s[..i])|;
      kept < |CamelCase(s, true)| && CamelCase(s, true)[kept] == Upper(s[i])
  {
    CamelCaseRecasesAndDropsUnderscores(s, true);
    if i == 0 {
      assert s[..0] == [];
    } else {
      CamelCaseAt(s, i, true);
    }
  }

  /** Helper for CamelCaseCapitalizesWordStarts, generalised over the
      capitalisation flag so that the induction goes through. */
  lemma {:induction false} CamelCaseAt(s: string, i: nat, capitalize: bool)
    requires 0 < i < |s| && StartsWord(s, i)
    ensures var kept := |WithoutUnderscores(s[..i])|;
      kept < |CamelCase(s, capitalize)| && CamelCase(s, capitalize)[kept] == Upper(s[i])
  {
    assert s[..i] == [s[0]] + s[1..i];
    assert s[1..][..i - 1] == s[1..i];
    CamelCaseRecasesAndDropsUnderscores(s[1..], true);
    CamelCaseRecasesAndDropsUnderscores(s[1..], false);
    if i == 1 {
      assert s[1..i] == [];
      assert s[0] == '_';
    } else {
      CamelCaseAt(s[1..], i - 1, s[0] == '_');
      if s[0] == '_' {
        assert WithoutUnderscores(s[..i]) == WithoutUnderscores(s[1..i]);
      } else {
        assert WithoutUnderscores(s[..i]) == [s[0]] + WithoutUnderscores(s[1..i]);
      }
    }
  }

  /** A character inside a word comes out as it is: the k-th kept
      character of `s` is that character unchanged. */
  lemma {:induction false} CamelCaseKeepsInsideWord(s: string, i: nat, capitalize: bool)
    requires i < |s| && InsideWord(s, i)
    ensures var kept := |WithoutUnderscores(s[..i])|;
      kept < |CamelCase(s, capitalize)| && CamelCase(s, capitalize)[kept] == s[i]
  {
    assert s[..i] == [s[0]] + s[1..i];
    assert s[1..][..i - 1] == s[1..i];
    CamelCaseRecasesAndDropsUnderscores(s[1..], true);
    CamelCaseRecasesAndDropsUnderscores(s[1..], false);
    if i == 1 {
      assert s[1..i] == [];
      assert WithoutUnderscores(s[..i]) == [s[0]];
      assert CamelCase(s[1..], false)[0] == s[1];
    } else {
      CamelCaseKeepsInsideWord(s[1..], i - 1, s[0] == '_');
      if s[0] == '_' {
        assert WithoutUnderscores(s[..i]) == WithoutUnderscores(s[1..i]);
      } else {
        assert WithoutUnderscores(s[..i]) == [s[0]] + WithoutUnderscores(s[1..i]);
      }
    }
  }

  /** A word without underscores keeps all its characters; only its first
      one is upper-cased when it starts a word. */
  lemma {:induction false} CamelCaseOfWord(w: string, capitalize: bool)
    requires '_' !in w
    ensures CamelCase(w, capitalize) == if w == [] then [] else [if capitalize then Upper(w[0]) else w[0]] + w[1..]
  {
    if w != [] {
      assert '_' !in w[1..];
      CamelCaseOfWord(w[1..], false);
    }
  }

  /** CamelCase works word by word: an underscore ends one word and makes
      the next one start upper-cased. */
  lemma {:induction false} CamelCaseAcrossUnderscore(a: string, b: string, capitalize: bool)
    requires '_' !in a
    ensures CamelCase(a + ['_'] + b, capitalize) == CamelCase(a, capitalize) + CamelCase(b, true)
  {
    if a == [] {
      assert a + ['_'] + b == ['_'] + b;
    } else {
      assert (a + ['_'] + b)[1..] == a[1..] + ['_'] + b;
      assert '_' !in a[1..];
      CamelCaseAcrossUnderscore(a[1..], b, false);
    }
  }

  /** Two words joined by an underscore come out as both words with their
      first characters upper-cased. */
  lemma CamelCaseOfTwoWords(a: string, b: string)
    requires '_' !in a && '_' !in b && a != [] && b != []
    ensures CamelCase(a + ['_'] + b, true) == [Upper(a[0])] + a[1..] + [Upper(b[0])] + b[1..]
  {
    CamelCaseAcrossUnderscore(a, b, true);
    CamelCaseOfWord(a, true);
    CamelCaseOfWord(b, true);
  }

  /** The job definition name is the step name with its underscores
      removed, followed by the suffix: its head holds no underscore,
      upper-cases every character that starts a word and keeps every other
      character as it is. */
  lemma JobDefNameShape(step: string)
    ensures var base := WithoutUnderscores(step); var r := JobDefName(step);
      && |r| == |base| + |JobDefSuffix|
      && r[|base|..] == JobDefSuffix
      && Lowered(r[..|base|]) == Lowered(base)
      && '_' !in r[..|base|]
      && (forall i :: 0 <= i < |step| && StartsWord(step, i) ==>
           |WithoutUnderscores(step[..i])| < |base| && r[|WithoutUnderscores(step[..i])|] == Upper(step[i]))
      && (forall i :: 0 <= i < |step| && InsideWord(step, i) ==>
           |WithoutUnderscores(step[..i])| < |base| && r[|WithoutUnderscores(step[..i])|] == step[i])
  {
    var base := WithoutUnderscores(step);
    var c := CamelCase(step, true);
    CamelCaseRecasesAndDropsUnderscores(step, true);
    assert JobDefName(step)[..|base|] == c;
    forall i | 0 <= i < |step| && StartsWord(step, i)
      ensures |WithoutUnderscores(step[..i])| < |base| && JobDefName(step)[|WithoutUnderscores(step[..i])|] == Upper(step[i])
    {
      CamelCaseCapitalizesWordStarts(step, i);
    }
    forall i | 0 <= i < |step| && InsideWord(step, i)
      ensures |WithoutUnderscores(step[..i])| < |base| && JobDefName(step)[|WithoutUnderscores(step[..i])|] == step[i]
    {
      CamelCaseKeepsInsideWord(step, i, true);
    }
  }

  lemma JobDefNameOfDoThis()
    ensures JobDefName("do_this") == "DoThisJobDef"
  {
    CamelCaseOfTwoWords("do", "this");
    assert "do" + ['_'] + "this" == "do_this";
  }

  lemma JobDefNameOfDoThat()
    ensures JobDefName("do_that") == "DoThatJobDef"
  {
    CamelCaseOfTwoWords("do", "that");
    assert "do" + ['_'] + "that" == "do_that";
  }

  /** Three words joined by underscores come out as the three words with
      their first characters upper-cased. */
  lemma CamelCaseOfThreeWords(a: string, b: string, c: string, s: string)
    requires '_' !in a && '_' !in b && '_' !in c && a != [] && b != [] && c != []
    requires s == a + ['_'] + b + ['_'] + c
    ensures CamelCase(s, true) == [Upper(a[0])] + a[1..] + [Upper(b[0])] + b[1..] + [Upper(c[0])] + c[1..]
  {
    var bc := b + ['_'] + c;
    assert s == a + ['_'] + bc;
    CamelCaseOfTwoWords(b, c);
    CamelCaseOfWord(a, true);
    CamelCaseAcrossUnderscore(a, bc, true);
  }

  // The name is a parameter fixed by `requires` so that the three-word
  // literal is not unfolded through CamelCase by the solver.
  lemma JobDefNameOfDoTheOther(name: string)
    requires name == "do_the_other"
    ensures JobDefName(name) == "DoTheOtherJobDef"
  {
    CamelCaseOfThreeWords("do", "the", "other", name);
  }

  /** The names the Parallel test expects for its three job steps. */
  lemma JobDefNamesOfParallelTest()
    ensures JobDefName("do_this") == "DoThisJobDef"
    ensures JobDefName("do_that") == "DoThatJobDef"
    ensures JobDefName("do_the_other") == "DoTheOtherJobDef"
  {
    JobDefNameOfDoThis();
    JobDefNameOfDoThat();
    JobDefNameOfDoTheOther("do_the_other");
  }
}
