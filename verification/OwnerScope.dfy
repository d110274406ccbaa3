/** Owner-scoped terminal session ids and request keys. */
module OwnerScope {
  import opened Common
  import opened Text

  const PREFIX := "obx"

  /** obx:<owner>:<id>, or the bare id when either part is empty. */
  function Scope(owner: string, id: string): string {
    var o, d := Trim(owner), Trim(id);
    if o == "" || d == "" then d else PREFIX + ":" + o + ":" + d
  }

  function Parse(scoped: string): Option<(string, string)> {
    var parts := SplitN(Trim(scoped), ':', 3);
    if |parts| != 3 || parts[0] != PREFIX then None
    else
      var o, d := Trim(parts[1]), Trim(parts[2]);
      if o == "" || d == "" then None else Some((o, d))
  }

  function Unscope(owner: string, scoped: string): Option<string> {
    var o, s := Trim(owner), Trim(scoped);
    if s == "" then None
    else if o == "" then Some(s)
    else
      var prefix := PREFIX + ":" + o + ":";
      if !(prefix <= s) then None
      else
        var d := Trim(s[|prefix|..]);
        if d == "" then None else Some(d)
  }

  /** What a restart accepts as the id of a persisted route. */
  predicate Persistable(scoped: string) {
    var parts := SplitN(Trim(scoped), ':', 3);
    |parts| == 3 && parts[0] == PREFIX && Trim(parts[1]) != "" && Trim(parts[2]) != ""
  }

  function RequestKey(owner: string, request: string): string { Trim(owner) + "\0" + Trim(request) }

  // ---------------------------------------------------------------- lemmas

  /** The scoped form needs no trimming itself. */
  lemma ScopedIsBare(o: string, d: string)
    requires Bare(Space, d) && d != ""
    ensures Trim(PREFIX + ":" + o + ":" + d) == PREFIX + ":" + o + ":" + d
  {
    var s := PREFIX + ":" + o + ":" + d;
    assert s[0] == 'o' && s[|s| - 1] == d[|d| - 1];
    TrimBareSame(Space, s);
  }

  /** What follows the first colon of o:d. */
  function After(o: string, d: string): string {
    var i := Index(o, ':');
    if i == |o| then d else o[i + 1..] + ":" + d
  }

  function Before(o: string): string { o[..Index(o, ':')] }

  lemma SplitAtColon(o: string, d: string)
    ensures o + ":" + d == Before(o) + [':'] + After(o, d)
  {
    var i := Index(o, ':');
    if i < |o| {
      var tail := o[i + 1..];
      assert o == o[..i] + [':'] + tail;
    } else {
      assert o[..i] == o;
    }
  }

  lemma Regroup(o: string, d: string)
    ensures PREFIX + ":" + o + ":" + d == PREFIX + [':'] + (Before(o) + [':'] + After(o, d))
  {
    SplitAtColon(o, d);
    var p := PREFIX + ":";
    assert p + o + ":" + d == p + (o + ":" + d);
  }

  /** How a scoped id splits: at the first colon of the owner if it has one, else after the owner. */
  lemma ScopedParts(o: string, d: string)
    ensures SplitN(PREFIX + ":" + o + ":" + d, ':', 3) == [PREFIX, Before(o), After(o, d)]
  {
    var x, y := Before(o), After(o, d);
    Regroup(o, d);
    ThreeParts(PREFIX, x, y);
  }

  lemma ThreeParts(a: string, x: string, y: string)
    requires ':' !in a && ':' !in x
    ensures SplitN(a + [':'] + (x + [':'] + y), ':', 3) == [a, x, y]
  {
    SplitJoined(a, ':', x + [':'] + y, 3);
    SplitJoined(x, ':', y, 2);
    assert SplitN(y, ':', 1) == [y];
  }

  lemma AfterEnds(o: string, d: string)
    requires d != "" && !Space(d[|d| - 1])
    ensures After(o, d) != "" && Trim(After(o, d)) != ""
  {
    var rest := After(o, d);
    assert rest[|rest| - 1] == d[|d| - 1];
    TrimKeeps(Space, rest);
  }

  /** Parsing undoes scoping exactly for owners without a colon, whatever the id contains. */
  lemma ParseUndoesScopeIff(owner: string, id: string)
    requires Trim(owner) != "" && Trim(id) != ""
    ensures Parse(Scope(owner, id)) == Some((Trim(owner), Trim(id))) <==> ':' !in Trim(owner)
  {
    var o, d := Trim(owner), Trim(id);
    TrimByBare(Space, owner);
    TrimByBare(Space, id);
    ScopedIsBare(o, d);
    ScopedParts(o, d);
    TrimBareSame(Space, o);
    TrimBareSame(Space, d);
    var i := Index(o, ':');
    if i < |o| {
      TrimByBare(Space, o[..i]);
      assert |Trim(o[..i])| < |o|;
    } else {
      assert o[..i] == o;
    }
  }

  /** Unscoping under the same owner undoes scoping for every owner. */
  lemma UnscopeUndoesScope(owner: string, id: string)
    ensures Unscope(owner, Scope(owner, id)) == if Trim(id) == "" then None else Some(Trim(id))
  {
    var o, d := Trim(owner), Trim(id);
    TrimByBare(Space, id);
    TrimBareSame(Space, d);
    if o != "" && d != "" {
      ScopedIsBare(o, d);
      var prefix := PREFIX + ":" + o + ":";
      assert Scope(owner, id) == prefix + d && (prefix + d)[|prefix|..] == d;
    }
  }

  /** A restart accepts a scoped id exactly when its owner does not begin with a colon. */
  lemma RestoreAcceptsScopedIff(owner: string, id: string)
    requires Trim(owner) != "" && Trim(id) != ""
    ensures Persistable(Scope(owner, id)) <==> Trim(owner)[0] != ':'
  {
    var o, d := Trim(owner), Trim(id);
    TrimByBare(Space, owner);
    TrimByBare(Space, id);
    ScopedIsBare(o, d);
    ScopedParts(o, d);
    AfterEnds(o, d);
    FirstStays(Before(o));
    assert Before(o) != "" ==> Before(o)[0] == o[0];
  }

  lemma FirstStays(s: string)
    requires s != "" ==> !Space(s[0])
    ensures Trim(s) == "" <==> s == ""
    decreases |s|
  {
    if s != "" && Space(s[|s| - 1]) {
      var t := s[..|s| - 1];
      assert Trim(s) == TrimRight(Space, t) && Trim(t) == TrimRight(Space, t);
      FirstStays(t);
    }
  }

  /** Two parts joined by a separator that neither first part holds determine both parts. */
  lemma JoinInjective(a: string, b: string, x: string, y: string, c: char)
    requires c !in a && c !in x && a + [c] + b == x + [c] + y
    ensures a == x && b == y
  {
    IndexJoined(a, c, b);
    IndexJoined(x, c, y);
    assert a == (a + [c] + b)[..|a|] && x == (x + [c] + y)[..|x|];
    assert b == (a + [c] + b)[|a| + 1..] && y == (x + [c] + y)[|x| + 1..];
  }

  /** Different (owner, id) pairs never share a scoped id, for owners without a colon. */
  lemma ScopeInjective(owner1: string, id1: string, owner2: string, id2: string)
    requires Trim(owner1) != "" && Trim(owner2) != "" && Trim(id1) != "" && Trim(id2) != ""
    requires ':' !in Trim(owner1) && ':' !in Trim(owner2)
    ensures Scope(owner1, id1) == Scope(owner2, id2) <==> Trim(owner1) == Trim(owner2) && Trim(id1) == Trim(id2)
  {
    ParseUndoesScopeIff(owner1, id1);
    ParseUndoesScopeIff(owner2, id2);
  }

  /** An owner without a colon can unscope another owner's id exactly when it equals what comes before that
      owner's first colon; for two owners without colons, exactly when they are the same. */
  lemma ForeignUnscopeIff(owner: string, other: string, id: string)
    requires Trim(owner) != "" && Trim(other) != "" && Trim(id) != "" && ':' !in Trim(owner)
    ensures Unscope(owner, Scope(other, id)).Some? <==> Trim(owner) == Before(Trim(other))
  {
    var o, p, d := Trim(owner), Trim(other), Trim(id);
    TrimByBare(Space, id);
    ScopedIsBare(p, d);
    Regroup(p, d);
    AfterEnds(p, d);
    PrefixIff(o, Before(p), After(p, d));
  }

  lemma PrefixIff(o: string, p: string, rest: string)
    requires ':' !in o && ':' !in p
    ensures
      var s, prefix := PREFIX + [':'] + (p + [':'] + rest), PREFIX + ":" + o + ":";
      (prefix <= s <==> o == p) && (o == p ==> s[|prefix|..] == rest)
  {
    var s, prefix := PREFIX + [':'] + (p + [':'] + rest), PREFIX + ":" + o + ":";
    if prefix <= s {
      var tail := s[|prefix|..];
      assert s == prefix + tail;
      assert s[4..] == p + [':'] + rest && (prefix + tail)[4..] == o + [':'] + tail;
      JoinInjective(p, rest, o, tail, ':');
    }
    if o == p {
      assert s == prefix + rest;
    }
  }

  /** Every owner with a colon shares ids with the owner named before that colon. */
  lemma ColonOwnersCollide(o: string, r: string, d: string)
    requires o != "" && r != "" && d != "" && Bare(Space, o) && Bare(Space, r) && Bare(Space, d)
    ensures Scope(o + ":" + r, d) == Scope(o, r + ":" + d)
  {
    TrimBareSame(Space, o);
    TrimBareSame(Space, d);
    TrimBareSame(Space, o + ":" + r);
    TrimBareSame(Space, r + ":" + d);
    var p := PREFIX + ":";
    assert p + (o + ":" + r) + ":" + d == p + o + ":" + (r + ":" + d);
  }

  /** Requests of different owners, and different requests of one owner, never share a reservation key. */
  lemma RequestKeyInjective(owner1: string, request1: string, owner2: string, request2: string)
    requires '\0' !in Trim(owner1) && '\0' !in Trim(owner2)
    ensures RequestKey(owner1, request1) == RequestKey(owner2, request2) <==>
      Trim(owner1) == Trim(owner2) && Trim(request1) == Trim(request2)
  {
    if RequestKey(owner1, request1) == RequestKey(owner2, request2) {
      JoinInjective(Trim(owner1), Trim(request1), Trim(owner2), Trim(request2), '\0');
    }
  }
}
