/** The storage rules of hooks/usePersistence.ts: how a persisted value is
    first read back, how each change is written back, and the file name
    `exportConfig` derives from the file name it is given.

    The browser's `localStorage` is a map from keys to text. `JSON.parse` and
    `JSON.stringify` are parameters: a parser that may reject its input and a
    serialiser; no round-trip law between them is assumed. */
module Persistence {
  import opened Wrappers
  import opened Text

  type Store = map<string, string>

  /** The lazy initial state of `usePersistence(key, defaultValue)`: text that
      is missing or empty (falsy) yields the default, text the parser rejects
      (the `catch`) yields the default, and parsed text yields what it parses
      to. */
  function LoadInitial<T>(store: Store, key: string, default: T, parse: string -> Option<T>): (v: T)
    ensures key !in store ==> v == default
    ensures key in store && store[key] == "" ==> v == default
    ensures key in store && store[key] != "" && parse(store[key]).None? ==> v == default
    ensures key in store && store[key] != "" && parse(store[key]).Some? ==> v == parse(store[key]).value
  {
    if key in store && store[key] != "" then parse(store[key]).GetOr(default)
    else default
  }

  /** The effect that runs after every change: the entry under `key` becomes
      the serialisation of the current value. */
  function WriteBack<T>(store: Store, key: string, v: T, serialize: T -> string): (r: Store)
    ensures key in r && r[key] == serialize(v)
    ensures forall k :: k != key ==> (k in r <==> k in store)
    ensures forall k :: k != key && k in store ==> r[k] == store[k]
  {
    store[key := serialize(v)]
  }

  /** A value written back is the value the next load starts from, provided
      its text is non-empty and parses back to it; when its text is rejected
      instead, the next load starts from the default. Other keys are read as
      before. */
  lemma WriteThenLoad<T>(store: Store, key: string, other: string, v: T, d: T, d': T,
                         parse: string -> Option<T>, serialize: T -> string)
    requires other != key
    ensures serialize(v) != "" && parse(serialize(v)) == Some(v) ==>
              LoadInitial(WriteBack(store, key, v, serialize), key, d, parse) == v
    ensures parse(serialize(v)).None? ==>
              LoadInitial(WriteBack(store, key, v, serialize), key, d, parse) == d
    ensures LoadInitial(WriteBack(store, key, v, serialize), other, d', parse)
            == LoadInitial(store, other, d', parse)
  {
  }

  // ------------------------------------------------------------ file names

  /** `s.replace(/\s+/g, '_')`: every maximal run of white space becomes one
      underscore, everything else is kept. The underscore is written at the
      last character of a run; a white-space character followed by another
      one writes nothing. */
  function Sanitize(s: string): string
  {
    if s == [] then []
    else if IsSpace(s[0]) && |s| > 1 && IsSpace(s[1]) then Sanitize(s[1..])
    else if IsSpace(s[0]) then "_" + Sanitize(s[1..])
    else [s[0]] + Sanitize(s[1..])
  }

  /** The download name `exportConfig(data, fileName)` gives the file. */
  function ExportFileName(name: string): (r: string)
    ensures |r| >= 12 && r[|r| - 12..] == "_config.json"
    ensures r[..|r| - 12] == Sanitize(name)
    ensures NoSpace(r)
  {
    SanitizedHasNoSpace(name);
    Sanitize(name) + "_config.json"
  }

  /** One visible character in front of a text without white space keeps it
      so. */
  lemma NoSpaceAfterHead(head: string, t: string)
    requires |head| == 1 && !IsSpace(head[0]) && NoSpace(t)
    ensures NoSpace(head + t)
  {
    forall i | 0 <= i < |head + t| ensures !IsSpace((head + t)[i]) {
      if i > 0 { assert (head + t)[i] == t[i - 1]; }
    }
  }

  /** The sanitised name holds no white space. */
  lemma {:induction false} SanitizedHasNoSpace(s: string)
    ensures NoSpace(Sanitize(s))
    decreases |s|
  {
    if s != [] {
      SanitizedHasNoSpace(s[1..]);
      if !(IsSpace(s[0]) && |s| > 1 && IsSpace(s[1])) {
        var head := if IsSpace(s[0]) then "_" else [s[0]];
        assert Sanitize(s) == head + Sanitize(s[1..]);
        NoSpaceAfterHead(head, Sanitize(s[1..]));
      }
    }
  }

  /** A name without white space is kept as it is. */
  lemma {:induction false} SanitizeKeepsPlainNames(s: string)
    requires NoSpace(s)
    ensures Sanitize(s) == s
    decreases |s|
  {
    if s != [] {
      assert NoSpace(s[1..]) by {
        forall i | 0 <= i < |s[1..]| ensures !IsSpace(s[1..][i]) {
          assert s[1..][i] == s[i + 1];
        }
      }
      SanitizeKeepsPlainNames(s[1..]);
      assert s == [s[0]] + s[1..];
    }
  }

  /** Sanitising twice is sanitising once. */
  lemma SanitizeIdempotent(s: string)
    ensures Sanitize(Sanitize(s)) == Sanitize(s)
  {
    SanitizedHasNoSpace(s);
    SanitizeKeepsPlainNames(Sanitize(s));
  }

  /** A non-empty run of white space alone becomes a single underscore. */
  lemma {:induction false} SanitizeRun(s: string)
    requires s != [] && IsBlank(s)
    ensures Sanitize(s) == "_"
    decreases |s|
  {
    if |s| > 1 {
      assert IsSpace(s[0]) && IsSpace(s[1]);
      assert IsBlank(s[1..]) by {
        forall i | 0 <= i < |s[1..]| ensures IsSpace(s[1..][i]) {
          assert s[1..][i] == s[i + 1];
        }
      }
      SanitizeRun(s[1..]);
    } else {
      assert IsSpace(s[0]) && s[1..] == [];
    }
  }

  /** Sanitising distributes over a concatenation that does not split a run
      of white space. With `SanitizeRun` and `SanitizeVisible` this pins the
      function down: each maximal run maps to `_`, every other character to
      itself. */
  lemma {:induction false} SanitizeAppend(a: string, b: string)
    requires a == [] || b == [] || !IsSpace(a[|a| - 1]) || !IsSpace(b[0])
    ensures Sanitize(a + b) == Sanitize(a) + Sanitize(b)
    decreases |a|
  {
    if a == [] {
      assert a + b == b;
    } else if b == [] {
      assert a + b == a;
    } else {
      var t := a[1..];
      assert (a + b)[0] == a[0] && (a + b)[1..] == t + b;
      assert t == [] || t[|t| - 1] == a[|a| - 1];
      SanitizeAppend(t, b);
      if t == [] {
        assert a + b == [a[0]] + b && Sanitize(a) == Sanitize([a[0]]);
        if IsSpace(a[0]) {
          assert !IsSpace(b[0]) && (a + b)[1] == b[0];
          assert Sanitize(a) == "_";
        } else {
          assert Sanitize(a) == [a[0]];
        }
      } else {
        assert (a + b)[1] == t[0] && a[1] == t[0];
      }
    }
  }

  /** A character other than white space is kept. */
  lemma SanitizeVisible(c: char)
    requires !IsSpace(c)
    ensures Sanitize([c]) == [c]
  {
    assert [c][1..] == [];
  }
}
