// The condition language of testkit_v2/util/filter.go.
//
// Strings are byte sequences, one char a byte, because the source slices bytes.
module Conditions {
  import opened Wrappers

  // A regular expression is the partial predicate it denotes; None is an
  // expression that does not compile.
  type Regex = string -> Option<bool>

  predicate PartAt(s: string, part: string, i: int) {
    0 <= i <= |s| - |part| && s[i..i + |part|] == part
  }

  predicate Contains(s: string, part: string) {
    exists i :: 0 <= i <= |s| && PartAt(s, part, i)
  }

  datatype Where =
    | WhereIn(texts: seq<string>)
    | WhereNotIn(texts: seq<string>)
    | WhereLike(texts: seq<string>)
    | WhereNotLike(texts: seq<string>)
    | WhereReg(regexes: seq<Regex>)
    | WhereNotReg(regexes: seq<Regex>)
  {
    predicate IsValid(val: string) {
      match this
      case WhereIn(vs) => val in vs
      case WhereNotIn(vs) => val !in vs
      case WhereLike(vs) => exists i :: 0 <= i < |vs| && Contains(val, vs[i])
      case WhereNotLike(vs) => forall i :: 0 <= i < |vs| ==> !Contains(val, vs[i])
      case WhereReg(rs) => exists i :: 0 <= i < |rs| && rs[i](val) == Some(true)
      case WhereNotReg(rs) => forall i :: 0 <= i < |rs| ==> rs[i](val) != Some(true)
    }

    function Complement(): Where {
      match this
      case WhereIn(vs) => WhereNotIn(vs)
      case WhereNotIn(vs) => WhereIn(vs)
      case WhereLike(vs) => WhereNotLike(vs)
      case WhereNotLike(vs) => WhereLike(vs)
      case WhereReg(rs) => WhereNotReg(rs)
      case WhereNotReg(rs) => WhereReg(rs)
    }
  }

  // The dynamic types a filter field may hold, and those an object's field may have.
  datatype Condition = Unset | Text(text: string) | Flag(flag: bool) | Of(where: Where) | OtherCondition
  datatype Value = TextValue(text: string) | FlagValue(flag: bool) | OtherValue

  predicate LikeShaped(w: string) {
    |w| >= 3 && w[0] == '%' && w[|w| - 1] == '%'
  }

  predicate NotLikeShaped(w: string) {
    |w| >= 4 && w[..2] == "!%" && w[|w| - 1] == '%'
  }

  predicate NotShaped(w: string) {
    |w| >= 2 && w[0] == '!'
  }

  predicate CheckCondition(where: Condition, val: Value) {
    if where.Unset? then true else
    match val
    case TextValue(v) => (
      match where
      case Text(w) =>
        if LikeShaped(w) then WhereLike([w[1..|w| - 1]]).IsValid(v)
        else if NotLikeShaped(w) then WhereNotLike([w[2..|w| - 1]]).IsValid(v)
        else if NotShaped(w) then WhereNotIn([w[1..]]).IsValid(v)
        else WhereIn([w]).IsValid(v)
      case Of(w) => w.IsValid(v)
      case _ => false)
    case FlagValue(v) => where.Flag? && where.flag == v
    case OtherValue => false
  }

  predicate Check(where: Condition, val: string) {
    CheckCondition(where, TextValue(val))
  }

  // What a string condition means, with its two markers taken off.
  datatype Pattern = Is(payload: string) | Not(payload: string) | Like(payload: string) | NotLike(payload: string)
  {
    predicate Accepts(v: string) {
      match this
      case Is(p) => v == p
      case Not(p) => v != p
      case Like(p) => Contains(v, p)
      case NotLike(p) => !Contains(v, p)
    }

    function Print(): string {
      match this
      case Is(p) => p
      case Not(p) => "!" + p
      case Like(p) => "%" + p + "%"
      case NotLike(p) => "!%" + p + "%"
    }

    // The payloads whose printed form reads back as the same pattern.
    predicate Printable() {
      match this
      case Is(p) => !LikeShaped(p) && !NotShaped(p)
      case Not(p) => p != "" && !LikeShaped(p)
      case Like(p) => p != ""
      case NotLike(p) => p != ""
    }
  }

  function Parse(w: string): Pattern {
    if LikeShaped(w) then Like(w[1..|w| - 1])
    else if NotLikeShaped(w) then NotLike(w[2..|w| - 1])
    else if NotShaped(w) then Not(w[1..])
    else Is(w)
  }

  // A string condition accepts what its parsed pattern accepts.
  lemma CheckMeansPattern(w: string, v: string)
    ensures Check(Text(w), v) == Parse(w).Accepts(v)
  {
    if LikeShaped(w) {
      var one := [w[1..|w| - 1]];
      assert one[0] == w[1..|w| - 1];
    } else if NotLikeShaped(w) {
      var one := [w[2..|w| - 1]];
      assert one[0] == w[2..|w| - 1];
    }
  }

  lemma NotLikeBytes(w: string)
    ensures NotLikeShaped(w) <==> |w| >= 4 && w[0] == '!' && w[1] == '%' && w[|w| - 1] == '%'
  {
    if |w| >= 4 {
      assert w[..2] == [w[0], w[1]];
    }
  }

  lemma PrintAfterParse(w: string)
    ensures Parse(w).Print() == w
    ensures Parse(w).Printable()
  {
    NotLikeBytes(w);
    if !LikeShaped(w) && NotLikeShaped(w) {
      assert w == w[..2] + w[2..|w| - 1] + [w[|w| - 1]];
    }
  }

  // Reading a printed pattern gives it back for exactly the printable payloads.
  lemma ParseAfterPrint(p: Pattern)
    ensures Parse(p.Print()) == p <==> p.Printable()
  {
    var w := p.Print();
    NotLikeBytes(w);
    match p
    case Is(_) =>
    case Not(_) =>
    case Like(q) =>
      assert q != "" ==> w[1..|w| - 1] == q;
    case NotLike(q) =>
      assert q != "" ==> w[2..|w| - 1] == q;
  }

  lemma ContainsEmpty(v: string)
    ensures Contains(v, "")
  {
    assert PartAt(v, "", 0);
  }

  lemma EmptyContains(q: string)
    ensures Contains("", q) <==> q == ""
  {
    if q == "" { ContainsEmpty(""); }
  }

  lemma ContainsMiddle(a: string, q: string, b: string)
    ensures Contains(a + q + b, q)
  {
    assert PartAt(a + q + b, q, |a|);
  }

  lemma ContainsBothWays(p: string, q: string)
    requires Contains(p, q) && Contains(q, p)
    ensures p == q
  {
  }

  // A string of other bytes than p's that q is not part of.
  lemma Avoiding(p: string, q: string) returns (v: string)
    requires q != ""
    ensures v != p && !Contains(v, q)
  {
    if p != "" {
      v := "";
    } else {
      v := if q[0] == 'a' then "b" else "a";
      assert forall i :: PartAt(v, q, i) ==> q[0] == v[i..i + |q|][0];
    }
  }

  // Two printable patterns that accept the same strings are the same pattern.
  lemma Separated(p: Pattern, q: Pattern) returns (v: string)
    requires p.Printable() && q.Printable() && p != q
    ensures p.Accepts(v) != q.Accepts(v)
  {
    var a, b := p.payload, q.payload;
    var both := a + b + "x";
    ContainsMiddle(a, b, "x");
    ContainsMiddle("", a, b + "x");
    assert both == "" + a + (b + "x");
    assert both != a && both != b;
    EmptyContains(a);
    EmptyContains(b);
    ContainsMiddle("", a, "");
    assert "" + a + "" == a;
    ContainsMiddle("", b, "");
    assert "" + b + "" == b;
    match (p, q)
    case (Is(_), Is(_)) => v := a;
    case (Not(_), Not(_)) => v := a;
    case (Like(_), Like(_)) =>
      v := if Contains(a, b) then b else a;
      if Contains(a, b) && Contains(b, a) { ContainsBothWays(a, b); }
    case (NotLike(_), NotLike(_)) =>
      v := if Contains(a, b) then b else a;
      if Contains(a, b) && Contains(b, a) { ContainsBothWays(a, b); }
    case (Is(_), Not(_)) => v := both;
    case (Not(_), Is(_)) => v := both;
    case (Is(_), Like(_)) => v := both;
    case (Like(_), Is(_)) => v := both;
    case (Not(_), NotLike(_)) => v := both;
    case (NotLike(_), Not(_)) => v := both;
    case (Is(_), NotLike(_)) => v := Avoiding(a, b);
    case (NotLike(_), Is(_)) => v := Avoiding(b, a);
    case (Not(_), Like(_)) => v := Avoiding(a, b);
    case (Like(_), Not(_)) => v := Avoiding(b, a);
    case (Like(_), NotLike(_)) => v := "";
    case (NotLike(_), Like(_)) => v := "";
  }

  // No two different strings are the same condition.
  lemma SameMeaningSameText(w: string, u: string)
    ensures (forall v :: Check(Text(w), v) == Check(Text(u), v)) <==> w == u
  {
    if w != u {
      PrintAfterParse(w);
      PrintAfterParse(u);
      var v := Separated(Parse(w), Parse(u));
      CheckMeansPattern(w, v);
      CheckMeansPattern(u, v);
    }
  }

  // Every string condition accepts some string and rejects some string.
  lemma NeverTrivial(w: string) returns (yes: string, no: string)
    ensures Check(Text(w), yes) && !Check(Text(w), no)
  {
    PrintAfterParse(w);
    var p := Parse(w).payload;
    EmptyContains(p);
    ContainsMiddle("", p, "");
    assert "" + p + "" == p;
    match Parse(w) {
      case Is(_) => yes, no := p, p + "x";
      case Not(_) => yes, no := p + "x", p;
      case Like(_) => yes, no := p, "";
      case NotLike(_) => yes, no := "", p;
    }
    CheckMeansPattern(w, yes);
    CheckMeansPattern(w, no);
  }

  // A leading '!' negates a string condition unless it is empty or already negated.
  lemma Negation(w: string)
    ensures (forall v :: Check(Text("!" + w), v) == !Check(Text(w), v)) <==> w != "" && !NotShaped(w)
  {
    var n := "!" + w;
    NotLikeBytes(n);
    NotLikeBytes(w);
    if w == "" {
      CheckMeansPattern(w, "x");
      CheckMeansPattern(n, "x");
    } else if NotShaped(w) {
      PrintAfterParse(w);
      EmptyContains(Parse(w).payload);
      CheckMeansPattern(w, "");
      CheckMeansPattern(n, "");
    } else {
      forall v
        ensures Check(Text(n), v) == !Check(Text(w), v)
      {
        CheckMeansPattern(w, v);
        CheckMeansPattern(n, v);
        assert LikeShaped(w) ==> n[2..|n| - 1] == w[1..|w| - 1];
      }
    }
  }

  // Each Where type accepts exactly what its Not twin rejects, expressions that do
  // not compile included.
  lemma WhereComplement(f: Where, v: string)
    ensures f.Complement().IsValid(v) == !f.IsValid(v)
    ensures f.Complement().Complement() == f
  {
  }

  // ---- What the pieces of the language mean ----

  // Containment is being a middle part.
  lemma ContainsMeans(v: string, t: string)
    ensures Contains(v, t) <==> exists p, q :: v == p + t + q
  {
    if Contains(v, t) {
      var i :| 0 <= i <= |v| && PartAt(v, t, i);
      assert v == v[..i] + t + v[i + |t|..];
    }
    if p, q :| v == p + t + q {
      ContainsMiddle(p, t, q);
    }
  }

  // A list with no text: nothing is in it, like it or matched by it.
  lemma WhereNone(v: string)
    ensures !Check(Of(WhereIn([])), v) && Check(Of(WhereNotIn([])), v)
    ensures !Check(Of(WhereLike([])), v) && Check(Of(WhereNotLike([])), v)
    ensures !Check(Of(WhereReg([])), v) && Check(Of(WhereNotReg([])), v)
  {
  }

  // A list with one text.
  lemma WhereOne(t: string, r: Regex, v: string)
    ensures Check(Of(WhereIn([t])), v) <==> v == t
    ensures Check(Of(WhereNotIn([t])), v) <==> v != t
    ensures Check(Of(WhereLike([t])), v) <==> exists p, q :: v == p + t + q
    ensures Check(Of(WhereNotLike([t])), v) <==> forall p, q :: v != p + t + q
    ensures Check(Of(WhereReg([r])), v) <==> r(v) == Some(true)
    ensures Check(Of(WhereNotReg([r])), v) <==> r(v) != Some(true)
  {
    ContainsMeans(v, t);
    assert [t][0] == t && [r][0] == r;
  }

  lemma AnyOfBoth<T>(a: seq<T>, b: seq<T>, p: T -> bool)
    ensures (exists i :: 0 <= i < |a + b| && p((a + b)[i]))
      <==> (exists i :: 0 <= i < |a| && p(a[i])) || exists i :: 0 <= i < |b| && p(b[i])
  {
    if i :| 0 <= i < |b| && p(b[i]) {
      assert (a + b)[|a| + i] == b[i];
    }
    if i :| 0 <= i < |a| && p(a[i]) {
      assert (a + b)[i] == a[i];
    }
  }

  // A longer list accepts what either part accepts; its Not twin what both twins accept.
  lemma WhereInBoth(a: seq<string>, b: seq<string>, v: string)
    ensures Check(Of(WhereIn(a + b)), v) <==> Check(Of(WhereIn(a)), v) || Check(Of(WhereIn(b)), v)
    ensures Check(Of(WhereNotIn(a + b)), v) <==> Check(Of(WhereNotIn(a)), v) && Check(Of(WhereNotIn(b)), v)
  {
  }

  lemma WhereLikeBoth(a: seq<string>, b: seq<string>, v: string)
    ensures Check(Of(WhereLike(a + b)), v) <==> Check(Of(WhereLike(a)), v) || Check(Of(WhereLike(b)), v)
    ensures Check(Of(WhereNotLike(a + b)), v) <==> Check(Of(WhereNotLike(a)), v) && Check(Of(WhereNotLike(b)), v)
  {
    AnyOfBoth(a, b, (t: string) => Contains(v, t));
    AnyLike(a, v);
    AnyLike(b, v);
    AnyLike(a + b, v);
    hide CheckCondition;
  }

  lemma AnyLike(texts: seq<string>, v: string)
    ensures
      var like := (t: string) => Contains(v, t);
      && (Check(Of(WhereLike(texts)), v) <==> exists i :: 0 <= i < |texts| && like(texts[i]))
      && (Check(Of(WhereNotLike(texts)), v) <==> !exists i :: 0 <= i < |texts| && like(texts[i]))
  {
    var like := (t: string) => Contains(v, t);
    assert forall i :: 0 <= i < |texts| ==> like(texts[i]) == Contains(v, texts[i]);
  }

  lemma WhereRegBoth(a: seq<Regex>, b: seq<Regex>, v: string)
    ensures Check(Of(WhereReg(a + b)), v) <==> Check(Of(WhereReg(a)), v) || Check(Of(WhereReg(b)), v)
    ensures Check(Of(WhereNotReg(a + b)), v) <==> Check(Of(WhereNotReg(a)), v) && Check(Of(WhereNotReg(b)), v)
  {
    var matches := (r: Regex) => r(v) == Some(true);
    AnyOfBoth(a, b, matches);
    AnyMatch(a, v);
    AnyMatch(b, v);
    AnyMatch(a + b, v);
  }

  lemma AnyMatch(regexes: seq<Regex>, v: string)
    ensures
      var matches := (r: Regex) => r(v) == Some(true);
      && (Check(Of(WhereReg(regexes)), v) <==> exists i :: 0 <= i < |regexes| && matches(regexes[i]))
      && (Check(Of(WhereNotReg(regexes)), v) <==> !exists i :: 0 <= i < |regexes| && matches(regexes[i]))
  {
    var matches := (r: Regex) => r(v) == Some(true);
    assert forall i :: 0 <= i < |regexes| ==> matches(regexes[i]) == (regexes[i](v) == Some(true));
  }

  // Values and conditions of different dynamic types never agree; no condition always does.
  lemma TypesMustAgree(c: Condition, v: string, b: bool)
    ensures CheckCondition(Unset, TextValue(v))
    ensures CheckCondition(c, TextValue(v)) ==> c.Unset? || c.Text? || c.Of?
    ensures CheckCondition(c, FlagValue(b)) <==> c.Unset? || (c.Flag? && c.flag == b)
    ensures CheckCondition(c, OtherValue) <==> c.Unset?
  {
  }

  // What a condition says of a text, by the pattern it is parsed to or the texts it lists.
  ghost predicate Says(c: Condition, v: string) {
    match c
    case Unset => true
    case Text(w) => Parse(w).Accepts(v)
    case Of(WhereIn(ts)) => exists t :: t in ts && v == t
    case Of(WhereNotIn(ts)) => !exists t :: t in ts && v == t
    case Of(WhereLike(ts)) => exists t :: t in ts && Contains(v, t)
    case Of(WhereNotLike(ts)) => !exists t :: t in ts && Contains(v, t)
    case Of(WhereReg(rs)) => exists i :: 0 <= i < |rs| && rs[i](v) == Some(true)
    case Of(WhereNotReg(rs)) => !exists i :: 0 <= i < |rs| && rs[i](v) == Some(true)
    case _ => false
  }

  lemma CheckSays(c: Condition, v: string)
    ensures Check(c, v) <==> Says(c, v)
  {
    if c.Text? {
      CheckMeansPattern(c.text, v);
    }
  }
}
