/** The public contact form: required fields, the e-mail pattern
    `^[^\s@]+@[^\s@]+\.[^\s@]+$`, keyword-based priority and field normalisation. */
module ContactForm {
  import opened Common
  import opened Text

  // ---------------------------------------------------------------- e-mail pattern

  /** A run the pattern's `[^\s@]+` accepts. */
  predicate Part(s: string) {
    |s| > 0 && forall k :: 0 <= k < |s| ==> !IsSpace(s[k]) && s[k] != '@'
  }

  /** The regular expression matches `e` with the `@` at `i` and the separating `.` at `j`. */
  ghost predicate MatchesAt(e: string, i: int, j: int) {
    && 0 < i < j < |e| - 1
    && e[i] == '@' && e[j] == '.'
    && Part(e[..i]) && Part(e[i + 1..j]) && Part(e[j + 1..])
  }

  ghost predicate PatternMatches(e: string) {
    exists i, j :: MatchesAt(e, i, j)
  }

  /** The pattern as a direct test: no whitespace, a non-empty local part before the only
      `@`, and a `.` after it with at least one character on each side. */
  predicate EmailShape(e: string) {
    var i := IndexOf(e, '@');
    NoSpace(e) && 0 < i < |e| && '@' !in e[i + 1..] && i + 2 <= |e| - 1 && '.' in e[i + 2..|e| - 1]
  }

  /** A match of the pattern has the shape. */
  lemma MatchHasShape(e: string, i: int, j: int)
    requires MatchesAt(e, i, j)
    ensures EmailShape(e)
  {
    assert forall q :: 0 <= q < i ==> e[q] == e[..i][q];
    assert forall q :: i < q < j ==> e[q] == e[i + 1..j][q - i - 1];
    assert forall q :: j < q < |e| ==> e[q] == e[j + 1..][q - j - 1];
    IndexOfUnique(e, '@', i);
    assert e[i + 1..] == e[i + 1..j] + [e[j]] + e[j + 1..];
    assert e[i + 2..|e| - 1][j - i - 2] == '.';
  }

  /** The shape yields a match. */
  lemma ShapeMatches(e: string)
    requires EmailShape(e)
    ensures PatternMatches(e)
  {
    var i := IndexOf(e, '@');
    var k :| 0 <= k < |e[i + 2..|e| - 1]| && e[i + 2..|e| - 1][k] == '.';
    assert e[i + 1..i + 2 + k] == [e[i + 1]] + e[i + 2..i + 2 + k];
    assert forall q :: i + 1 <= q < |e| ==> e[q] != '@' by {
      forall q | i + 1 <= q < |e| ensures e[q] != '@' { assert e[i + 1..][q - i - 1] == e[q]; }
    }
    assert MatchesAt(e, i, i + 2 + k);
  }

  function ValidEmail(e: string): (b: bool)
    ensures b <==> PatternMatches(e)
  {
    forall i, j | MatchesAt(e, i, j) ensures EmailShape(e) { MatchHasShape(e, i, j); }
    if EmailShape(e) then ShapeMatches(e); true else false
  }

  /** The first `c` is at `i` when `s[i] == c` and no `c` comes before it. */
  lemma {:induction false} IndexOfUnique(s: string, c: char, i: int)
    requires 0 <= i < |s| && s[i] == c && forall q :: 0 <= q < i ==> s[q] != c
    ensures IndexOf(s, c) == i
  {
    if i > 0 {
      IndexOfUnique(s[1..], c, i - 1);
    }
  }

  /** Lower-casing keeps an address valid: `@`, `.` and whitespace are left alone. */
  lemma LowerKeepsEmail(e: string)
    requires ValidEmail(e)
    ensures ValidEmail(Lower(e))
  {
    var i, j :| MatchesAt(e, i, j);
    var l := Lower(e);
    assert l[..i] == Lower(e[..i]) && l[i + 1..j] == Lower(e[i + 1..j]) && l[j + 1..] == Lower(e[j + 1..]);
    assert MatchesAt(l, i, j);
  }

  // ---------------------------------------------------------------- priority

  const UrgentKeywords := ["urgent", "emergency", "critical", "asap", "immediately"]

  /** `high` when the lower-cased message contains an urgent keyword, `medium` otherwise
      (the second keyword list also leads to `medium`, so it changes nothing). */
  function Classify(message: string): (r: string)
    ensures r == "high" <==> exists k :: k in UrgentKeywords && Contains(Lower(message), k)
    ensures r == "high" || r == "medium"
  {
    var text := Lower(message);
    if exists k :: k in UrgentKeywords && Contains(text, k) then "high" else "medium"
  }

  /** An occurrence in an infix is an occurrence in the whole string. */
  lemma OccursOutward(t: string, r: string, a: nat, w: string, p: int)
    requires a + |r| <= |t| && r == t[a..a + |r|] && OccursAt(r, w, p)
    ensures OccursAt(t, w, a + p)
  {
    forall q | 0 <= q < |w| ensures t[a + p..a + p + |w|][q] == w[q] {
      assert w[q] == r[p..p + |w|][q] == r[p + q] == t[a + p + q];
    }
    assert t[a + p..a + p + |w|] == w;
  }

  /** An occurrence of a word that starts and ends without whitespace cannot reach into
      the whitespace around an infix. */
  lemma OccursInward(t: string, r: string, a: nat, w: string, p: int)
    requires a + |r| <= |t| && r == t[a..a + |r|]
    requires forall q :: 0 <= q < a ==> IsSpace(t[q])
    requires forall q :: a + |r| <= q < |t| ==> IsSpace(t[q])
    requires |w| > 0 && !IsSpace(w[0]) && !IsSpace(w[|w| - 1])
    requires OccursAt(t, w, p)
    ensures OccursAt(r, w, p - a)
  {
    assert t[p] == t[p..p + |w|][0] == w[0];
    assert t[p + |w| - 1] == t[p..p + |w|][|w| - 1] == w[|w| - 1];
    forall q | 0 <= q < |w| ensures r[p - a..p - a + |w|][q] == w[q] {
      assert w[q] == t[p..p + |w|][q] == t[p + q] == r[p - a + q];
    }
    assert r[p - a..p - a + |w|] == w;
  }

  /** A nonempty word without whitespace occurs in `t` exactly when it occurs in an infix of
      `t` obtained by cutting whitespace off both ends. */
  lemma ContainsInfix(t: string, r: string, a: nat, w: string)
    requires a + |r| <= |t| && r == t[a..a + |r|]
    requires forall q :: 0 <= q < a ==> IsSpace(t[q])
    requires forall q :: a + |r| <= q < |t| ==> IsSpace(t[q])
    requires |w| > 0 && NoSpace(w)
    ensures Contains(r, w) <==> Contains(t, w)
  {
    if Contains(r, w) {
      var p :| OccursAt(r, w, p);
      OccursOutward(t, r, a, w, p);
    }
    if Contains(t, w) {
      var p :| OccursAt(t, w, p);
      OccursInward(t, r, a, w, p);
    }
  }

  /** Trimming the message never changes its priority. */
  lemma ClassifyTrim(message: string)
    ensures Classify(Trim(message)) == Classify(message)
  {
    var r := Trim(message);
    var a :| TrimmedAt(message, r, a);
    LowerTrimmed(message, r, a);
    KeywordsSurviveTrim(Lower(message), Lower(r), a);
  }

  /** Lower-casing commutes with cutting out the trimmed infix. */
  lemma LowerTrimmed(s: string, r: string, a: int)
    requires TrimmedAt(s, r, a)
    ensures TrimmedAt(Lower(s), Lower(r), a)
  {
    LowerKeepsSpaces(s);
    assert Lower(r) == Lower(s)[a..a + |r|];
  }

  /** Each urgent keyword occurs in the trimmed text exactly when it occurs in the text. */
  lemma KeywordsSurviveTrim(t: string, r: string, a: int)
    requires TrimmedAt(t, r, a)
    ensures forall k :: k in UrgentKeywords ==> (Contains(r, k) <==> Contains(t, k))
  {
    forall k | k in UrgentKeywords
      ensures Contains(r, k) <==> Contains(t, k)
    {
      assert NoSpace(k) && |k| > 0;
      ContainsInfix(t, r, a, k);
    }
  }

  // ---------------------------------------------------------------- submission

  const Sources := ["website", "email", "phone", "referral", "other"]

  datatype ContactRequest = ContactRequest(
    name: Option<string>,
    email: Option<string>,
    company: Option<string>,
    phone: Option<string>,
    message: Option<string>,
    source: Option<string>)

  datatype ContactMessage = ContactMessage(
    name: string,
    email: string,
    company: string,
    phone: string,
    message: string,
    status: string,
    priority: string,
    source: string)

  /** `x?.trim() || ""` */
  function TrimOrEmpty(x: Option<string>): string {
    if x.Some? then Trim(x.value) else ""
  }

  /** The document built from a complete request: fields trimmed, the address also
      lower-cased, absent company and phone as `""`, the source defaulting to `website`. */
  function Normalize(req: ContactRequest): (m: ContactMessage)
    requires Truthy(req.name) && Truthy(req.email) && Truthy(req.message)
    ensures m.status == "new" && m.priority == Classify(req.message.value)
    ensures req.source.None? ==> m.source == "website"
  {
    ContactMessage(Trim(req.name.value), Lower(Trim(req.email.value)), TrimOrEmpty(req.company), TrimOrEmpty(req.phone),
                   Trim(req.message.value), "new", Classify(req.message.value),
                   if req.source.Some? then req.source.value else "website")
  }

  /** `save()`'s `required` and `enum` validators. */
  predicate Storable(m: ContactMessage) {
    m.name != "" && m.message != "" && m.source in Sources
  }

  /** `POST /contact`: 400 for a missing field or a malformed address; otherwise the
      normalised message, which `save()` refuses (500) when the trimmed name or message is
      empty or the source is outside its enum. */
  function Submit(req: ContactRequest): (r: Reply<ContactMessage>)
    ensures !(Truthy(req.name) && Truthy(req.email) && Truthy(req.message)) ==> r == Failure(400)
    ensures Truthy(req.email) && !ValidEmail(req.email.value) ==> r == Failure(400)
    ensures r.Success? ==>
              && r.code == 201 && r.body.status == "new"
              && ValidEmail(r.body.email) && Lower(r.body.email) == r.body.email
              && Storable(r.body)
              && r.body.priority == Classify(req.message.value)
              && (req.source.None? ==> r.body.source == "website")
    ensures r.Failure? ==> r.code == 400 || r.code == 500
  {
    if !(Truthy(req.name) && Truthy(req.email) && Truthy(req.message)) then Failure(400)
    else if !ValidEmail(req.email.value) then Failure(400)
    else
      var e := req.email.value;
      assert EmailShape(e);
      TrimNoSpace(e);
      LowerKeepsEmail(e);
      LowerIdempotent(e);
      var m := Normalize(req);
      if !Storable(m) then Failure(500) else Success(201, m)
  }

  /** A name that is only whitespace passes the presence check but not the schema. */
  lemma BlankNameRefused(req: ContactRequest)
    requires Truthy(req.name) && Truthy(req.email) && Truthy(req.message) && ValidEmail(req.email.value)
    requires Trim(req.name.value) == ""
    ensures Submit(req) == Failure(500)
  {
  }

  /** The form fields a stored message would be re-submitted with. */
  function Resubmit(m: ContactMessage): ContactRequest {
    ContactRequest(Some(m.name), Some(m.email), Some(m.company), Some(m.phone), Some(m.message), Some(m.source))
  }

  /** Normalising the fields of a normalised message gives it back. */
  lemma NormalizeStable(req: ContactRequest)
    requires Truthy(req.name) && Truthy(req.email) && Truthy(req.message) && EmailShape(req.email.value)
    requires Storable(Normalize(req))
    ensures Normalize(Resubmit(Normalize(req))) == Normalize(req)
  {
    var e := req.email.value;
    TrimNoSpace(e);
    LowerKeepsEmail(e);
    assert EmailShape(Lower(e));
    TrimNoSpace(Lower(e));
    LowerIdempotent(e);
    TrimIdempotent(req.name.value);
    TrimIdempotent(req.message.value);
    ClassifyTrim(req.message.value);
    if req.company.Some? { TrimIdempotent(req.company.value); }
    if req.phone.Some? { TrimIdempotent(req.phone.value); }
  }

  /** A submission succeeds exactly when the request is complete, the address has the
      pattern's shape and the normalised document is storable; it then yields that document. */
  lemma SubmitSucceeds(req: ContactRequest)
    ensures Submit(req).Success? <==>
              Truthy(req.name) && Truthy(req.email) && Truthy(req.message) && EmailShape(req.email.value)
              && Storable(Normalize(req))
    ensures Submit(req).Success? ==> Submit(req).body == Normalize(req)
  {
  }

  /** Normalisation is stable: submitting the fields of a stored message again yields the
      same message. */
  lemma SubmitStable(req: ContactRequest)
    requires Submit(req).Success?
    ensures Submit(Resubmit(Submit(req).body)) == Submit(req)
  {
    SubmitSucceeds(req);
    var m := Normalize(req);
    assert Submit(req) == Success(201, m);
    NormalizeStable(req);
    assert Normalize(Resubmit(m)) == m;
    var e := req.email.value;
    TrimNoSpace(e);
    LowerKeepsEmail(e);
    assert EmailShape(m.email);
    SubmitSucceeds(Resubmit(m));
    assert Submit(Resubmit(m)) == Success(201, m);
  }
}
