/** Session helpers of frontend/js/app.js: the role a user ends up with
    after `login`, and `getStoreInitials`. */
module Session {
  import opened Common
  import opened Text

  const CustomerRole := "customer"
  const StoreRole := "store"

  /** The role `login` settles on. `fetched` is what `fetchUserRole`
      resolved to, or `None` when it lost the race against the timeout;
      `metadataRole` is `user_metadata.role`. A falsy fetched role falls
      back to the metadata role, and a falsy metadata role to "customer". */
  function LoginRole(fetched: Option<string>, metadataRole: Option<string>): (role: string)
    ensures role != ""
    ensures Truthy(fetched) ==> role == fetched.value
    ensures !Truthy(fetched) && Truthy(metadataRole) ==> role == metadataRole.value
    ensures !Truthy(fetched) && !Truthy(metadataRole) ==> role == CustomerRole
  {
    if Truthy(fetched) then fetched.value
    else if Truthy(metadataRole) then metadataRole.value
    else CustomerRole
  }

  /** The first truthy candidate, or `default`: the reading of a chain of
      `||` fallbacks. */
  function FirstTruthy(candidates: seq<Option<string>>, default: string): string {
    if candidates == [] then default
    else if Truthy(candidates[0]) then candidates[0].value
    else FirstTruthy(candidates[1..], default)
  }

  /** The role is the first present one of: fetched role, metadata role,
      "customer". */
  lemma LoginRoleIsFallbackChain(fetched: Option<string>, metadataRole: Option<string>)
    ensures LoginRole(fetched, metadataRole) == FirstTruthy([fetched, metadataRole], CustomerRole)
  {
    if !Truthy(fetched) {
      assert [fetched, metadataRole][1..] == [metadataRole];
      if !Truthy(metadataRole) {
        assert [metadataRole][1..] == [];
        assert FirstTruthy([metadataRole], CustomerRole) == FirstTruthy([], CustomerRole);
      }
    }
  }

  // ---------------------------------------------------------------------
  // Store initials

  /** The first characters of the words of `s`, where words are separated
      by single spaces and an empty word contributes nothing. `atStart` says
      whether `s` starts a word. */
  function WordStartsFrom(s: string, atStart: bool): (r: string)
    ensures |r| <= |s|
    ensures forall i :: 0 <= i < |r| ==> r[i] != ' ' && r[i] in s
  {
    if s == [] then []
    else
      var rest := WordStartsFrom(s[1..], s[0] == ' ');
      assert forall i :: 0 <= i < |rest| ==> rest[i] in s;
      (if atStart && s[0] != ' ' then [s[0]] else []) + rest
  }

  function WordStarts(s: string): string {
    WordStartsFrom(s, true)
  }

  /** `s.split(' ')`. */
  function SplitOnSpace(s: string): (parts: seq<string>)
    ensures |parts| >= 1
    decreases |s|
  {
    var head := Before(s, ' ');
    if |head| == |s| then [s] else [head] + SplitOnSpace(s[|head| + 1..])
  }

  /** `parts.map(n => n[0]).join('')`: the first character of every part;
      `n[0]` of an empty part is `undefined`, which `join` prints as
      nothing. */
  function Heads(parts: seq<string>): string {
    if parts == [] then "" else parts[0][..if parts[0] == [] then 0 else 1] + Heads(parts[1..])
  }

  /** Inside a word (not at its start), the rest of the word contributes
      nothing and the next word starts afresh after the space. */
  lemma {:induction false} InsideWord(w: string, rest: string)
    requires ' ' !in w
    ensures WordStartsFrom(w + [' '] + rest, false) == WordStartsFrom(rest, true)
    ensures WordStartsFrom(w, false) == []
  {
    if w != [] {
      assert (w + [' '] + rest)[1..] == w[1..] + [' '] + rest;
      InsideWord(w[1..], rest);
    } else {
      assert (w + [' '] + rest)[1..] == rest;
    }
  }

  /** The word-start scan is the split-and-take-heads reading of the source. */
  lemma {:induction false} WordStartsIsSplitHeads(s: string)
    ensures WordStarts(s) == Heads(SplitOnSpace(s))
    decreases |s|
  {
    var head := Before(s, ' ');
    if |head| == |s| {
      assert head == s;
      assert SplitOnSpace(s) == [s];
      if s != [] {
        assert s == [s[0]] + s[1..];
        InsideWord(s[1..], []);
      }
    } else {
      var rest := s[|head| + 1..];
      assert s == head + [' '] + rest;
      WordStartsIsSplitHeads(rest);
      if head == [] {
        assert s[1..] == rest;
      } else {
        assert s[1..] == head[1..] + [' '] + rest;
        InsideWord(head[1..], rest);
      }
    }
  }

  lemma {:induction false} WordStartsAcrossSpace(a: string, b: string, atStart: bool)
    ensures WordStartsFrom(a + [' '] + b, atStart) == WordStartsFrom(a, atStart) + WordStartsFrom(b, true)
  {
    if a == [] {
      assert a + [' '] + b == [' '] + b;
      assert ([' '] + b)[1..] == b;
    } else {
      assert (a + [' '] + b)[0] == a[0];
      assert (a + [' '] + b)[1..] == a[1..] + [' '] + b;
      WordStartsAcrossSpace(a[1..], b, a[0] == ' ');
    }
  }

  /** A single word starts once, with its first character. */
  lemma OneWordStart(w: string)
    requires w != [] && ' ' !in w
    ensures WordStartsFrom(w, true) == [w[0]]
  {
    assert ' ' !in w[1..];
    InsideWord(w[1..], []);
  }

  /** Two words joined by one space start with their first characters. */
  lemma TwoWordStarts(a: string, b: string)
    requires a != [] && b != [] && ' ' !in a && ' ' !in b
    ensures WordStarts(a + [' '] + b) == [a[0], b[0]]
  {
    WordStartsAcrossSpace(a, b, true);
    OneWordStart(a);
    OneWordStart(b);
  }

  /** `getStoreInitials(name)`: "?" for a falsy name, otherwise the first
      two word initials, upper-cased. */
  function StoreInitials(name: Option<string>): (r: string)
    ensures !Truthy(name) ==> r == "?"
    ensures Truthy(name) ==> |r| == if |WordStarts(name.value)| <= 2 then |WordStarts(name.value)| else 2
    ensures Truthy(name) ==> forall i :: 0 <= i < |r| ==> r[i] == UpperChar(WordStarts(name.value)[i])
  {
    if !Truthy(name) then "?"
    else
      var all := Upper(WordStarts(name.value));
      if |all| <= 2 then all else all[..2]
  }

  lemma WordStartsIgnoreExtraSpace(a: string, b: string)
    ensures WordStarts(a + [' '] + ([' '] + b)) == WordStarts(a + [' '] + b)
  {
    WordStartsAcrossSpace(a, [' '] + b, true);
    WordStartsAcrossSpace(a, b, true);
    assert ([' '] + b)[1..] == b;
  }

  /** Extra spaces between words do not change the initials. */
  lemma InitialsIgnoreExtraSpaces(a: string, b: string)
    ensures StoreInitials(Some(a + " " + " " + b)) == StoreInitials(Some(a + " " + b))
  {
    assert a + " " + " " + b == a + [' '] + ([' '] + b);
    assert a + " " + b == a + [' '] + b;
    WordStartsIgnoreExtraSpace(a, b);
  }
}
