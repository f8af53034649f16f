/**
 * Which command names the completion callback offers: every registered name
 * in which the typed text occurs anywhere (`command.find(text) != npos`),
 * not only those it starts.
 */
module Completion {
  import opened Sequences

  /** `s.find(text) != std::string::npos`. */
  predicate Occurs(text: string, s: string): (found: bool)
    ensures text <= s ==> found
    ensures |text| > |s| ==> !found
    decreases |s|
  {
    text <= s || (|s| > 0 && Occurs(text, s[1..]))
  }

  /** `text` sits at position `i` of `s`. */
  predicate OccursAt(text: string, s: string, i: int) {
    0 <= i <= |s| - |text| && s[i..i + |text|] == text
  }

  /** `Occurs` is substring search: `text` sits at some position of `s`. */
  lemma {:induction false} OccursIff(text: string, s: string)
    ensures Occurs(text, s) <==> exists i :: OccursAt(text, s, i)
    decreases |s|
  {
    if Occurs(text, s) {
      if text <= s {
        assert OccursAt(text, s, 0);
      } else {
        OccursIff(text, s[1..]);
        var i :| OccursAt(text, s[1..], i);
        forall k | 0 <= k < |text| ensures s[i + 1..i + 1 + |text|][k] == text[k] {
          assert s[1..][i..i + |text|][k] == text[k];
        }
        assert OccursAt(text, s, i + 1);
      }
    }
    if exists i :: OccursAt(text, s, i) {
      var i :| OccursAt(text, s, i);
      if i == 0 {
        assert text <= s;
      } else {
        forall k | 0 <= k < |text| ensures s[1..][i - 1..i - 1 + |text|][k] == text[k] {
          assert s[i..i + |text|][k] == text[k];
        }
        assert OccursAt(text, s[1..], i - 1);
        OccursIff(text, s[1..]);
      }
    }
  }

  /** The names of `names`, in order, in which `text` occurs. */
  function Matches(names: seq<string>, text: string): (ms: seq<string>)
    ensures |ms| <= |names|
    ensures forall k :: 0 <= k < |ms| ==> Occurs(text, ms[k])
    decreases |names|
  {
    if names == [] then []
    else
      var last := names[|names| - 1];
      Matches(names[..|names| - 1], text) + (if Occurs(text, last) then [last] else [])
  }

  /** No name at an index in `lo .. hi` matches. */
  predicate NoMatchIn(names: seq<string>, text: string, lo: nat, hi: nat) {
    forall k :: lo <= k < hi && k < |names| ==> !Occurs(text, names[k])
  }

  /** A name is offered exactly when it is registered and `text` occurs in it. */
  lemma {:induction false} MatchesIff(names: seq<string>, text: string, x: string)
    ensures x in Matches(names, text) <==> x in names && Occurs(text, x)
    decreases |names|
  {
    if names != [] {
      var init := names[..|names| - 1];
      MatchesIff(init, text, x);
      assert names == init + [names[|names| - 1]];
    }
  }

  /** A scan over a list without repetitions offers each name at most once. */
  lemma {:induction false} MatchesDistinct(names: seq<string>, text: string)
    requires Distinct(names)
    ensures Distinct(Matches(names, text))
    decreases |names|
  {
    if names != [] {
      var init := names[..|names| - 1];
      var last := names[|names| - 1];
      assert Distinct(init);
      MatchesDistinct(init, text);
      if Occurs(text, last) {
        MatchesIff(init, text, last);
        assert last !in init;
      }
    }
  }

  /** Skipping names that do not match adds nothing to the scan. */
  lemma {:induction false} MatchesSkip(names: seq<string>, text: string, lo: nat, hi: nat)
    requires lo <= hi <= |names|
    requires NoMatchIn(names, text, lo, hi)
    ensures Matches(names[..hi], text) == Matches(names[..lo], text)
    decreases hi - lo
  {
    if lo < hi {
      assert names[..hi][..hi - 1] == names[..hi - 1];
      MatchesSkip(names, text, lo, hi - 1);
    }
  }

  /** A matching name at index `k` extends the scan of the names before it. */
  lemma MatchesStep(names: seq<string>, text: string, k: nat)
    requires k < |names| && Occurs(text, names[k])
    ensures Matches(names[..k + 1], text) == Matches(names[..k], text) + [names[k]]
  {
    assert names[..k + 1][..k] == names[..k];
  }

  /** Substring, not prefix: "el" completes to "help". */
  lemma SubstringExample()
    ensures Matches(["help", "run", "history"], "h") == ["help", "history"]
    ensures Matches(["help", "run", "history"], "el") == ["help"]
  {
    assert "h" <= "help" && "h" <= "history";
    assert !Occurs("h", "run") by {
      assert !Occurs("h", []);
      assert "n"[0] != "h"[0];
      assert !("h" <= "n") && "n"[1..] == [];
      assert !("h" <= "un") && "un"[1..] == "n";
      assert !("h" <= "run") && "run"[1..] == "un";
    }
    assert Occurs("el", "help") by {
      assert "el" <= "help"[1..];
    }
    assert !Occurs("el", "run") by {
      assert !Occurs("el", []);
      assert !("el" <= "n") && "n"[1..] == [];
      assert !("el" <= "un") && "un"[1..] == "n";
      assert !("el" <= "run") && "run"[1..] == "un";
    }
    assert !Occurs("el", "history") by {
      assert !Occurs("el", []);
      assert !("el" <= "y") && "y"[1..] == [];
      assert !("el" <= "ry") && "ry"[1..] == "y";
      assert !("el" <= "ory") && "ory"[1..] == "ry";
      assert !("el" <= "tory") && "tory"[1..] == "ory";
      assert !("el" <= "story") && "story"[1..] == "tory";
      assert !("el" <= "istory") && "istory"[1..] == "story";
      assert !("el" <= "history") && "history"[1..] == "istory";
    }
    assert ["help", "run", "history"][..2] == ["help", "run"];
    assert ["help", "run"][..1] == ["help"];
  }
}
