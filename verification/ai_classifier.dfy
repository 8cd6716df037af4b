/** The batch classifier of components/AIClassifier.tsx: the pasted text is
    split into lines, blank lines are dropped, the remaining names are sent
    to the classification service, and its answer replaces the results.
    The service is a foreign call: its answer, or `None` when it throws, is
    a parameter. */
module AiClassifier {
  import opened Wrappers
  import opened Text

  /** `s.split('\n')`: the pieces between line feeds, always at least one
      (the empty text splits into one empty piece). */
  function Split(s: string): (r: seq<string>)
    ensures |r| >= 1
    ensures forall k :: 0 <= k < |r| ==> '\n' !in r[k]
  {
    if s == [] then [[]]
    else
      var rest := Split(s[1..]);
      if s[0] == '\n' then [[]] + rest
      else [[s[0]] + rest[0]] + rest[1..]
  }

  /** `pieces.join('\n')` */
  function Join(pieces: seq<string>): string
    requires |pieces| >= 1
  {
    if |pieces| == 1 then pieces[0] else pieces[0] + "\n" + Join(pieces[1..])
  }

  /** Joining the pieces with line feeds gives back the text: the split
      loses nothing but the separators. */
  lemma {:induction false} SplitJoin(s: string)
    ensures Join(Split(s)) == s
    decreases |s|
  {
    if s != [] {
      var rest := Split(s[1..]);
      SplitJoin(s[1..]);
      if s[0] == '\n' {
        assert Split(s)[1..] == rest;
      } else {
        var r := Split(s);
        assert r[1..] == rest[1..];
        if |rest| == 1 {
          assert s == [s[0]] + rest[0];
        } else {
          assert Join(rest) == rest[0] + "\n" + Join(rest[1..]);
          assert s == [s[0]] + s[1..];
        }
      }
    }
  }

  /** `lines.filter(l => l.trim())`: the lines that are not blank, in order. */
  function NonBlank(lines: seq<string>): (r: seq<string>)
    ensures |r| <= |lines|
    ensures forall l :: l in r <==> l in lines && !IsBlank(l)
  {
    if lines == [] then []
    else if IsBlank(lines[0]) then NonBlank(lines[1..])
    else [lines[0]] + NonBlank(lines[1..])
  }

  /** The filter keeps the surviving lines in their original order: it
      distributes over concatenation. */
  lemma {:induction false} NonBlankAppend(a: seq<string>, b: seq<string>)
    ensures NonBlank(a + b) == NonBlank(a) + NonBlank(b)
    decreases |a|
  {
    if a == [] {
      assert a + b == b;
    } else {
      assert (a + b)[0] == a[0] && (a + b)[1..] == a[1..] + b;
      NonBlankAppend(a[1..], b);
    }
  }

  /** The names sent for classification. */
  function Names(input: string): (r: seq<string>)
    ensures forall l :: l in r ==> !IsBlank(l) && '\n' !in l
  {
    NonBlank(Split(input))
  }

  /** Text that is not blank always yields at least one name. */
  lemma NamesOfNonBlank(input: string)
    requires !IsBlank(input)
    ensures |Names(input)| > 0
  {
    var l := SplitHasNonBlank(input);
    assert l in Names(input);
  }

  /** Some piece of a non-blank text is itself non-blank. */
  lemma {:induction false} SplitHasNonBlank(s: string) returns (l: string)
    requires !IsBlank(s)
    ensures l in Split(s) && !IsBlank(l)
    decreases |s|
  {
    var rest := Split(s[1..]);
    if !IsSpace(s[0]) {
      l := [s[0]] + rest[0];
      assert Split(s)[0] == l;
      assert !IsSpace(l[0]);
    } else {
      assert !IsBlank(s[1..]) by {
        var i :| 0 <= i < |s| && !IsSpace(s[i]);
        assert s[1..][i - 1] == s[i];
      }
      var m := SplitHasNonBlank(s[1..]);
      if s[0] == '\n' || m != rest[0] {
        l := m;
        assert Split(s)[1..] == rest[1..] || Split(s)[1..] == rest;
        var j :| 0 <= j < |rest| && rest[j] == m;
        if s[0] == '\n' {
          assert Split(s)[j + 1] == m;
        } else {
          assert j > 0;
          assert Split(s)[j] == m;
        }
      } else {
        l := [s[0]] + m;
        assert Split(s)[0] == l;
        var i :| 0 <= i < |m| && !IsSpace(m[i]);
        assert l[i + 1] == m[i];
      }
    }
  }

  /** The component's state: the pasted text, the busy flag and the last
      results (records of the service, of type `R`). */
  datatype ClassifierState<R> = ClassifierState(input: string, classifying: bool, results: seq<R>)

  /** What a run leaves behind and the names it sent, if it asked at all. */
  datatype RunOutcome<R> = RunOutcome(state: ClassifierState<R>, request: Option<seq<string>>)

  /** `runClassification`. Blank text returns at once: no request, nothing
      changed. Otherwise the names are sent; an answer replaces the results
      wholesale, a rejection keeps the previous ones, and the busy flag ends
      cleared either way. */
  function RunClassification<R>(st: ClassifierState<R>, response: Option<seq<R>>): (r: RunOutcome<R>)
    ensures IsBlank(st.input) ==> r == RunOutcome(st, None)
    ensures !IsBlank(st.input) ==> && r.request == Some(Names(st.input))
                                   && |r.request.value| > 0
                                   && r.state.input == st.input
                                   && !r.state.classifying
    ensures !IsBlank(st.input) && response.Some? ==> r.state.results == response.value
    ensures !IsBlank(st.input) && response.None? ==> r.state.results == st.results
  {
    if IsBlank(st.input) then RunOutcome(st, None)
    else
      NamesOfNonBlank(st.input);
      var results := match response
        case Some(rs) => rs
        case None => st.results;
      RunOutcome(ClassifierState(st.input, false, results), Some(Names(st.input)))
  }
}
