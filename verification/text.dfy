/** Small string vocabulary shared by the model: an optional value, substring
    containment, joining with a separator (Go's strings.Join) and the literal
    replace-all the placeholder rewrite performs (Go's strings.ReplaceAll with
    the fixed token "example"). Strings are sequences of characters; no
    encoding is interpreted. */
module Text {

  datatype Option<+T> = None | Some(value: T)

  /** `t` occurs in `s` as a contiguous run (Go's strings.Contains). */
  predicate Contains(s: string, t: string) {
    exists i: nat | i <= |s| :: OccursAt(s, t, i)
  }

  /** `t` occurs in `s` starting at index `i`. */
  predicate OccursAt(s: string, t: string, i: nat) {
    i + |t| <= |s| && s[i..i + |t|] == t
  }

  lemma ContainsSelf(s: string)
    ensures Contains(s, s)
  {
    assert OccursAt(s, s, 0);
  }

  lemma ContainsInLeft(a: string, b: string, t: string)
    requires Contains(a, t)
    ensures Contains(a + b, t)
  {
    var i: nat :| i <= |a| && OccursAt(a, t, i);
    assert (a + b)[i..i + |t|] == a[i..i + |t|];
    assert OccursAt(a + b, t, i);
  }

  lemma ContainsInRight(a: string, b: string, t: string)
    requires Contains(b, t)
    ensures Contains(a + b, t)
  {
    var i: nat :| i <= |b| && OccursAt(b, t, i);
    assert (a + b)[|a| + i..|a| + i + |t|] == b[i..i + |t|];
    assert OccursAt(a + b, t, |a| + i);
  }

  lemma ContainsTransitive(s: string, t: string, u: string)
    requires Contains(s, t) && Contains(t, u)
    ensures Contains(s, u)
  {
    var i: nat :| i <= |s| && OccursAt(s, t, i);
    var j: nat :| j <= |t| && OccursAt(t, u, j);
    forall k | 0 <= k < |u|
      ensures u[k] == s[i + j + k]
    {
      assert u[k] == t[j + k] == s[i + j + k];
    }
    assert s[i + j..i + j + |u|] == u;
    assert OccursAt(s, u, i + j);
  }

  /** Go's strings.Join: the parts in order, `sep` between neighbours. */
  function Join(parts: seq<string>, sep: string): string
    decreases |parts|
  {
    if |parts| == 0 then ""
    else if |parts| == 1 then parts[0]
    else parts[0] + sep + Join(parts[1..], sep)
  }

  /** Every part survives the join as a substring. */
  lemma {:induction false} JoinContainsPart(parts: seq<string>, sep: string, i: nat)
    requires i < |parts|
    ensures Contains(Join(parts, sep), parts[i])
    decreases |parts|
  {
    if |parts| == 1 {
      ContainsSelf(parts[0]);
    } else if i == 0 {
      ContainsSelf(parts[0]);
      ContainsInLeft(parts[0], sep + Join(parts[1..], sep), parts[0]);
      assert parts[0] + sep + Join(parts[1..], sep) == parts[0] + (sep + Join(parts[1..], sep));
    } else {
      JoinContainsPart(parts[1..], sep, i - 1);
      ContainsInRight(parts[0] + sep, Join(parts[1..], sep), parts[i]);
    }
  }

  lemma JoinContainsMember(parts: seq<string>, sep: string, x: string)
    requires x in parts
    ensures Contains(Join(parts, sep), x)
  {
    var i :| 0 <= i < |parts| && parts[i] == x;
    JoinContainsPart(parts, sep, i);
  }

  /** The first part starts the joined string. */
  lemma {:induction false} JoinStartsWithFirst(parts: seq<string>, sep: string)
    requires |parts| > 0
    ensures parts[0] <= Join(parts, sep)
  {
    if |parts| > 1 {
      assert Join(parts, sep) == parts[0] + (sep + Join(parts[1..], sep));
    }
  }

  /** Neighbouring parts appear in the joined string with the separator
      between them, so the join keeps the parts' order. */
  lemma {:induction false} JoinNeighbours(parts: seq<string>, sep: string, i: nat)
    requires i + 1 < |parts|
    ensures Contains(Join(parts, sep), parts[i] + sep + parts[i + 1])
    decreases |parts|
  {
    var tail := Join(parts[1..], sep);
    assert Join(parts, sep) == parts[0] + sep + tail;
    if i == 0 {
      JoinStartsWithFirst(parts[1..], sep);
      var rest := tail[|parts[1]|..];
      assert tail == parts[1] + rest;
      assert Join(parts, sep) == (parts[0] + sep + parts[1]) + rest;
      ContainsSelf(parts[0] + sep + parts[1]);
      ContainsInLeft(parts[0] + sep + parts[1], rest, parts[0] + sep + parts[1]);
    } else {
      JoinNeighbours(parts[1..], sep, i - 1);
      assert parts[1..][i - 1] == parts[i] && parts[1..][i] == parts[i + 1];
      ContainsInRight(parts[0] + sep, tail, parts[i] + sep + parts[i + 1]);
    }
  }

  /** The fixed token the final pass rewrites. */
  const Placeholder: string := "example"

  /** Go's strings.ReplaceAll(s, "example", name): scanning left to right, each
      non-overlapping occurrence of the token is replaced by `name`; all other
      characters are copied. */
  function ReplacePlaceholder(s: string, name: string): (r: string)
    ensures !Contains(s, Placeholder) ==> r == s
    decreases |s|
  {
    if |s| < |Placeholder| then s
    else if Placeholder <= s then
      assert OccursAt(s, Placeholder, 0);
      name + ReplacePlaceholder(s[|Placeholder|..], name)
    else
      TailKeepsAbsence(s);
      [s[0]] + ReplacePlaceholder(s[1..], name)
  }

  /** A run missing from `s` is missing from every suffix of it. */
  lemma TailKeepsAbsence(s: string)
    requires |s| > 0
    ensures !Contains(s, Placeholder) ==> !Contains(s[1..], Placeholder)
  {
    if Contains(s[1..], Placeholder) {
      var i: nat :| i <= |s[1..]| && OccursAt(s[1..], Placeholder, i);
      assert s[i + 1..i + 1 + |Placeholder|] == s[1..][i..i + |Placeholder|];
      assert OccursAt(s, Placeholder, i + 1);
    }
  }

  /** An occurrence that does not start the text lies in its tail. */
  lemma TokenAfterHead(s: string)
    requires Contains(s, Placeholder) && !(Placeholder <= s)
    ensures Contains(s[1..], Placeholder)
  {
    var i: nat :| i <= |s| && OccursAt(s, Placeholder, i);
    assert i != 0 by { assert s[..|Placeholder|] == s[0..|Placeholder|]; }
    assert s[1..][i - 1..i - 1 + |Placeholder|] == s[i..i + |Placeholder|];
    assert OccursAt(s[1..], Placeholder, i - 1);
  }

  /** Go's strings.Count(s, "example"): non-overlapping occurrences, left to right. */
  function Occurrences(s: string): nat
    decreases |s|
  {
    if |s| < |Placeholder| then 0
    else if Placeholder <= s then 1 + Occurrences(s[|Placeholder|..])
    else Occurrences(s[1..])
  }

  /** Each replaced occurrence trades seven characters for the name. */
  lemma {:induction false} ReplaceLength(s: string, name: string)
    ensures |ReplacePlaceholder(s, name)| == |s| + Occurrences(s) * (|name| - |Placeholder|)
    decreases |s|
  {
    if |s| < |Placeholder| {
    } else if Placeholder <= s {
      var rest := s[|Placeholder|..];
      ReplaceLength(rest, name);
      assert ReplacePlaceholder(s, name) == name + ReplacePlaceholder(rest, name);
      assert Occurrences(s) == Occurrences(rest) + 1;
      MulSucc(Occurrences(rest), |name| - |Placeholder|);
    } else {
      ReplaceLength(s[1..], name);
    }
  }

  lemma MulSucc(n: nat, d: int)
    ensures (n + 1) * d == n * d + d
  {
  }

  /** Occurrences counts at least one exactly when the token occurs at all. */
  lemma {:induction false} OccurrencesPositiveIffContains(s: string)
    ensures Occurrences(s) > 0 <==> Contains(s, Placeholder)
    decreases |s|
  {
    if |s| < |Placeholder| {
    } else if Placeholder <= s {
      assert OccursAt(s, Placeholder, 0);
    } else {
      OccurrencesPositiveIffContains(s[1..]);
      TailKeepsAbsence(s);
      if Contains(s, Placeholder) {
        TokenAfterHead(s);
      }
    }
  }

  /** Wherever the token occurs, the rewritten text mentions the name. */
  lemma {:induction false} ReplaceMentionsName(s: string, name: string)
    requires Contains(s, Placeholder)
    ensures Contains(ReplacePlaceholder(s, name), name)
    decreases |s|
  {
    if Placeholder <= s {
      ContainsSelf(name);
      ContainsInLeft(name, ReplacePlaceholder(s[|Placeholder|..], name), name);
    } else {
      TokenAfterHead(s);
      ReplaceMentionsName(s[1..], name);
      ContainsInRight([s[0]], ReplacePlaceholder(s[1..], name), name);
    }
  }

  /** Renaming to the token itself changes nothing. */
  lemma {:induction false} ReplaceWithPlaceholderIsIdentity(s: string)
    ensures ReplacePlaceholder(s, Placeholder) == s
    decreases |s|
  {
    if |s| < |Placeholder| {
    } else if Placeholder <= s {
      ReplaceWithPlaceholderIsIdentity(s[|Placeholder|..]);
      assert s == s[..|Placeholder|] + s[|Placeholder|..];
    } else {
      ReplaceWithPlaceholderIsIdentity(s[1..]);
      assert s == [s[0]] + s[1..];
    }
  }

  /** A second pass over text that no longer holds the token is a no-op. */
  lemma ReplaceIdempotentWhenClean(s: string, name: string)
    requires !Contains(ReplacePlaceholder(s, name), Placeholder)
    ensures ReplacePlaceholder(ReplacePlaceholder(s, name), name) == ReplacePlaceholder(s, name)
  {
  }

  /** One pass does not always leave the text free of the token: a name can
      complete a partial token left in front of it. */
  lemma RewriteCanFormToken(s: string, name: string)
    requires s == "exaexample" && name == "mple"
    ensures ReplacePlaceholder(s, name) == Placeholder && Contains(ReplacePlaceholder(s, name), Placeholder)
  {
    var t := s[3..];
    assert t == Placeholder;
    assert ReplacePlaceholder(t, name) == name by {
      assert t[|Placeholder|..] == "";
    }
    KeepsHead(s[2..], 0, name);
    assert s[2..][1..] == t;
    KeepsHead(s[1..], 0, name);
    assert s[1..][1..] == s[2..];
    KeepsHead(s, 3, name);
    ContainsSelf(Placeholder);
  }

  /** A text that differs from the token within its first seven characters
      keeps its first character in front of the rewritten rest. */
  lemma KeepsHead(s: string, k: nat, name: string)
    requires |s| >= |Placeholder| && k < |Placeholder| && s[k] != Placeholder[k]
    ensures ReplacePlaceholder(s, name) == [s[0]] + ReplacePlaceholder(s[1..], name)
  {
    assert s[..|Placeholder|][k] != Placeholder[k];
  }
}
