/** The request fingerprint behind idempotency conflicts: five fields joined with '|'
    and hashed. */
module Fingerprint {

  /** The significant fields of a registration request. */
  datatype Form = Form(eventId: string, firstName: string, lastName: string, email: string, seat: string)

  function Join(fields: seq<string>): string {
    if fields == [] then ""
    else if |fields| == 1 then fields[0]
    else fields[0] + "|" + Join(fields[1..])
  }

  function Fields(form: Form): seq<string> {
    [form.eventId, form.firstName, form.lastName, form.email, form.seat]
  }

  function Raw(form: Form): string {
    Join(Fields(form))
  }

  function RequestHash(sha256: string -> string, form: Form): string {
    sha256(Raw(form))
  }

  predicate Clean(s: string) {
    '|' !in s
  }

  predicate CleanForm(form: Form) {
    forall i :: 0 <= i < 5 ==> Clean(Fields(form)[i])
  }

  /** No other form reads the same once joined. Event ids are UUIDs, which never contain
      the separator. */
  ghost predicate Unambiguous(form: Form) {
    forall other: Form :: Clean(other.eventId) && Raw(other) == Raw(form) ==> other == form
  }

  function Bars(s: string): nat {
    if s == "" then 0 else Bars(s[1..]) + if s[0] == '|' then 1 else 0
  }

  function AllBars(fields: seq<string>): nat {
    if fields == [] then 0 else Bars(fields[0]) + AllBars(fields[1..])
  }

  lemma {:induction false} BarsOfConcat(a: string, b: string)
    ensures Bars(a + b) == Bars(a) + Bars(b)
  {
    if a == "" {
      assert a + b == b;
    } else {
      assert (a + b)[1..] == a[1..] + b;
      BarsOfConcat(a[1..], b);
    }
  }

  lemma {:induction false} CleanIffNoBars(s: string)
    ensures Clean(s) <==> Bars(s) == 0
  {
    if s == "" {
    } else {
      assert s == [s[0]] + s[1..];
      CleanIffNoBars(s[1..]);
    }
  }

  lemma {:induction false} BarsOfJoin(fields: seq<string>)
    requires fields != []
    ensures Bars(Join(fields)) == AllBars(fields) + |fields| - 1
  {
    if |fields| == 1 {
      assert AllBars(fields[1..]) == 0;
    } else {
      BarsOfJoin(fields[1..]);
      BarsOfConcat(fields[0] + "|", Join(fields[1..]));
      BarsOfConcat(fields[0], "|");
      assert Bars("|") == 1 + Bars("");
    }
  }

  lemma {:induction false} CleanIffNoBarsInFields(fields: seq<string>)
    ensures (forall i :: 0 <= i < |fields| ==> Clean(fields[i])) <==> AllBars(fields) == 0
  {
    if fields == [] {
    } else {
      CleanIffNoBars(fields[0]);
      CleanIffNoBarsInFields(fields[1..]);
      assert forall i :: 1 <= i < |fields| ==> fields[i] == fields[1..][i - 1];
    }
  }

  /** The first separator tells where a clean first field ends. */
  lemma SplitAtFirstBar(a: string, x: string, b: string, y: string)
    requires Clean(a) && Clean(b) && a + "|" + x == b + "|" + y
    ensures a == b && x == y
  {
    var s, t := a + "|" + x, b + "|" + y;
    assert s[|a|] == '|' && t[|b|] == '|';
    assert forall i :: 0 <= i < |a| ==> s[i] == a[i] && a[i] != '|';
    assert forall i :: 0 <= i < |b| ==> t[i] == b[i] && b[i] != '|';
    assert |a| == |b|;
    assert a == s[..|a|] && b == t[..|b|];
    assert x == s[|a| + 1..] && y == t[|b| + 1..];
  }

  lemma {:induction false} CleanJoinInjective(a: seq<string>, b: seq<string>)
    requires |a| == |b| && Join(a) == Join(b)
    requires forall i :: 0 <= i < |a| ==> Clean(a[i]) && Clean(b[i])
    ensures a == b
  {
    if |a| == 1 {
      assert a == [a[0]] && b == [b[0]];
    } else if |a| > 1 {
      SplitAtFirstBar(a[0], Join(a[1..]), b[0], Join(b[1..]));
      CleanJoinInjective(a[1..], b[1..]);
      assert a == [a[0]] + a[1..] && b == [b[0]] + b[1..];
    }
  }

  lemma CleanIsUnambiguous(form: Form, other: Form)
    requires CleanForm(form) && Raw(other) == Raw(form)
    ensures other == form
  {
    var a, b := Fields(form), Fields(other);
    BarsOfJoin(a);
    BarsOfJoin(b);
    CleanIffNoBarsInFields(a);
    CleanIffNoBarsInFields(b);
    CleanJoinInjective(a, b);
    assert a[0] == b[0] && a[1] == b[1] && a[2] == b[2] && a[3] == b[3] && a[4] == b[4];
  }

  lemma BarIn(s: string) returns (x: string, y: string)
    requires !Clean(s)
    ensures s == x + "|" + y
  {
    var i :| 0 <= i < |s| && s[i] == '|';
    x, y := s[..i], s[i + 1..];
  }

  lemma RawOf(form: Form)
    ensures Raw(form) == form.eventId + "|" +
            (form.firstName + "|" + (form.lastName + "|" + (form.email + "|" + form.seat)))
  {
    var f := Fields(form);
    assert f[1..] == [form.firstName, form.lastName, form.email, form.seat];
    assert f[1..][1..] == [form.lastName, form.email, form.seat];
    assert f[1..][1..][1..] == [form.email, form.seat];
    assert f[1..][1..][1..][1..] == [form.seat];
    assert Join([form.email, form.seat]) == form.email + "|" + form.seat;
    assert Join(f[1..][1..]) == form.lastName + "|" + Join(f[1..][1..][1..]);
    assert Join(f[1..]) == form.firstName + "|" + Join(f[1..][1..]);
    assert Join(f) == form.eventId + "|" + Join(f[1..]);
  }

  /** The fingerprint is the hash of the five fields, separated by '|'. */
  lemma HashOfFields(sha256: string -> string, form: Form)
    ensures RequestHash(sha256, form)
         == sha256(form.eventId + "|" + (form.firstName + "|" + (form.lastName + "|" + (form.email + "|" + form.seat))))
  {
    RawOf(form);
  }

  lemma NamesShift(eventId: string, x: string, y: string, lastName: string, email: string, seat: string)
    ensures Raw(Form(eventId, x + "|" + y, lastName, email, seat))
         == Raw(Form(eventId, x, y + "|" + lastName, email, seat))
  {
    RawOf(Form(eventId, x + "|" + y, lastName, email, seat));
    RawOf(Form(eventId, x, y + "|" + lastName, email, seat));
    var rest := email + "|" + seat;
    assert (x + "|" + y) + "|" + (lastName + "|" + rest) == x + "|" + ((y + "|" + lastName) + "|" + rest);
  }

  /** A separator inside a field can be moved to the neighbouring field. */
  lemma DirtyCollides(form: Form) returns (other: Form)
    requires Clean(form.eventId) && !CleanForm(form)
    ensures other != form && other.eventId == form.eventId && Raw(other) == Raw(form)
  {
    var f := Fields(form);
    RawOf(form);
    if !Clean(form.firstName) {
      var x, y := BarIn(form.firstName);
      other := form.(firstName := x, lastName := y + "|" + form.lastName);
      assert form.firstName + "|" + (form.lastName + "|" + (form.email + "|" + form.seat))
          == x + "|" + (other.lastName + "|" + (form.email + "|" + form.seat));
      assert |other.firstName| < |form.firstName|;
    } else if !Clean(form.lastName) {
      var x, y := BarIn(form.lastName);
      other := form.(firstName := form.firstName + "|" + x, lastName := y);
      assert form.firstName + "|" + (form.lastName + "|" + (form.email + "|" + form.seat))
          == other.firstName + "|" + (y + "|" + (form.email + "|" + form.seat));
      assert |other.lastName| < |form.lastName|;
    } else if !Clean(form.email) {
      var x, y := BarIn(form.email);
      other := form.(lastName := form.lastName + "|" + x, email := y);
      assert form.lastName + "|" + (form.email + "|" + form.seat)
          == other.lastName + "|" + (y + "|" + form.seat);
      assert |other.email| < |form.email|;
    } else {
      assert Clean(f[0]) && Clean(f[1]) && Clean(f[2]) && Clean(f[3]);
      var x, y := BarIn(form.seat);
      other := form.(email := form.email + "|" + x, seat := y);
      assert form.email + "|" + form.seat == other.email + "|" + y;
      assert |other.seat| < |form.seat|;
    }
    RawOf(other);
  }

  /** Joining identifies a form exactly when none of its fields contains the separator. */
  lemma UnambiguousIff(form: Form)
    requires Clean(form.eventId)
    ensures Unambiguous(form) <==> CleanForm(form)
  {
    if CleanForm(form) {
      forall other: Form | Raw(other) == Raw(form) ensures other == form {
        CleanIsUnambiguous(form, other);
      }
    } else {
      var other := DirtyCollides(form);
    }
  }

  /** Under a collision-free hash, a clean form has its fingerprint to itself. */
  lemma FingerprintIff(sha256: string -> string, form: Form, other: Form)
    requires forall x, y :: sha256(x) == sha256(y) ==> x == y
    requires CleanForm(form)
    ensures RequestHash(sha256, other) == RequestHash(sha256, form) <==> other == form
  {
    if RequestHash(sha256, other) == RequestHash(sha256, form) {
      CleanIsUnambiguous(form, other);
    }
  }

  // ---- among the requests that validation accepts ----

  const MAX_NAME := 100
  const MAX_SEAT := 10

  /** What the request schema accepts. Event ids are UUIDs and never contain the separator;
      which texts are e-mail addresses is left open. */
  predicate ValidForm(isEmail: string -> bool, form: Form) {
    && Clean(form.eventId)
    && 1 <= |form.firstName| <= MAX_NAME && 1 <= |form.lastName| <= MAX_NAME
    && isEmail(form.email)
    && 1 <= |form.seat| <= MAX_SEAT
  }

  /** Another request that validation accepts has the same joined text. */
  ghost predicate Collides(isEmail: string -> bool, form: Form) {
    exists other: Form :: ValidForm(isEmail, other) && other != form && Raw(other) == Raw(form)
  }

  /** What follows the event id in the joined text. */
  function Tail(form: Form): string {
    form.firstName + "|" + (form.lastName + "|" + (form.email + "|" + form.seat))
  }

  /** The three separators at which a tail may be read as four fields. */
  predicate Cuts(tail: string, p: int, q: int, r: int) {
    && 0 <= p < q < r < |tail|
    && tail[p] == '|' && tail[q] == '|' && tail[r] == '|'
  }

  function Reading(eventId: string, tail: string, p: int, q: int, r: int): Form
    requires Cuts(tail, p, q, r)
  {
    Form(eventId, tail[..p], tail[p + 1..q], tail[q + 1..r], tail[r + 1..])
  }

  /** The cuts that give the form itself. */
  function OwnCuts(form: Form): (cuts: (int, int, int))
    ensures Cuts(Tail(form), cuts.0, cuts.1, cuts.2)
    ensures Reading(form.eventId, Tail(form), cuts.0, cuts.1, cuts.2) == form
  {
    var p := |form.firstName|;
    var q := p + 1 + |form.lastName|;
    var r := q + 1 + |form.email|;
    var tail := Tail(form);
    assert tail[p + 1..] == form.lastName + "|" + (form.email + "|" + form.seat);
    assert tail[q + 1..] == form.email + "|" + form.seat;
    assert tail[..p] == form.firstName && tail[p + 1..q] == form.lastName;
    assert tail[q + 1..r] == form.email && tail[r + 1..] == form.seat;
    (p, q, r)
  }

  lemma ReadingHasTail(eventId: string, tail: string, p: int, q: int, r: int)
    requires Cuts(tail, p, q, r)
    ensures Tail(Reading(eventId, tail, p, q, r)) == tail
  {
    assert tail == tail[..p] + "|" + tail[p + 1..];
    assert tail[p + 1..] == tail[p + 1..q] + "|" + tail[q + 1..];
    assert tail[q + 1..] == tail[q + 1..r] + "|" + tail[r + 1..];
  }

  /** The tail can be cut differently into four fields that validation accepts. */
  ghost predicate OtherReading(isEmail: string -> bool, form: Form) {
    exists p, q, r :: Cuts(Tail(form), p, q, r) && (p, q, r) != OwnCuts(form)
                      && ValidForm(isEmail, Reading(form.eventId, Tail(form), p, q, r))
  }

  lemma SameTail(form: Form, other: Form)
    requires Clean(form.eventId) && Clean(other.eventId)
    ensures Raw(other) == Raw(form) <==> other.eventId == form.eventId && Tail(other) == Tail(form)
  {
    RawOf(form);
    RawOf(other);
    if Raw(other) == Raw(form) {
      SplitAtFirstBar(form.eventId, Tail(form), other.eventId, Tail(other));
    }
  }

  lemma CollisionCuts(isEmail: string -> bool, form: Form, other: Form) returns (p: int, q: int, r: int)
    requires ValidForm(isEmail, form) && ValidForm(isEmail, other) && other != form && Raw(other) == Raw(form)
    ensures Cuts(Tail(form), p, q, r) && (p, q, r) != OwnCuts(form)
    ensures ValidForm(isEmail, Reading(form.eventId, Tail(form), p, q, r))
  {
    SameTail(form, other);
    var cuts := OwnCuts(other);
    p, q, r := cuts.0, cuts.1, cuts.2;
    assert Reading(form.eventId, Tail(form), p, q, r) == other;
  }

  lemma CutsCollide(form: Form, p: int, q: int, r: int)
    requires Clean(form.eventId) && Cuts(Tail(form), p, q, r) && (p, q, r) != OwnCuts(form)
    ensures var other := Reading(form.eventId, Tail(form), p, q, r);
            other != form && Raw(other) == Raw(form)
  {
    var other := Reading(form.eventId, Tail(form), p, q, r);
    ReadingHasTail(form.eventId, Tail(form), p, q, r);
    SameTail(form, other);
    assert |other.firstName| == p && |other.lastName| == q - p - 1 && |other.email| == r - q - 1;
  }

  /** Exactly when a valid request shares its fingerprint text with another valid one. */
  lemma CollidesIff(isEmail: string -> bool, form: Form)
    requires ValidForm(isEmail, form)
    ensures Collides(isEmail, form) <==> OtherReading(isEmail, form)
  {
    if other: Form :| ValidForm(isEmail, other) && other != form && Raw(other) == Raw(form) {
      var p, q, r := CollisionCuts(isEmail, form, other);
    }
    if p, q, r :| Cuts(Tail(form), p, q, r) && (p, q, r) != OwnCuts(form)
                  && ValidForm(isEmail, Reading(form.eventId, Tail(form), p, q, r)) {
      CutsCollide(form, p, q, r);
    }
  }

  /** The joined names have a second place to be cut. */
  predicate NamesCutElsewhere(form: Form) {
    var names := form.firstName + "|" + form.lastName;
    exists i | 0 <= i < |names| ::
      i != |form.firstName| && names[i] == '|' && 1 <= i <= MAX_NAME && 1 <= |names| - i - 1 <= MAX_NAME
  }

  /** E-mail and seat without the separator, as in practice. */
  predicate PlainContact(form: Form) {
    Clean(form.email) && Clean(form.seat)
  }

  /** The last separator tells where a clean last field begins. */
  lemma SplitAtLastBar(x: string, a: string, y: string, b: string)
    requires Clean(a) && Clean(b) && x + "|" + a == y + "|" + b
    ensures a == b && x == y
  {
    var s, t := x + "|" + a, y + "|" + b;
    assert s[|x|] == '|' && t[|y|] == '|';
    assert forall i :: |x| < i < |s| ==> s[i] == a[i - |x| - 1] && a[i - |x| - 1] != '|';
    assert forall i :: |y| < i < |t| ==> t[i] == b[i - |y| - 1] && b[i - |y| - 1] != '|';
    assert |x| == |y|;
    assert a == s[|x| + 1..] && b == t[|y| + 1..];
    assert x == s[..|x|] && y == t[..|y|];
  }

  lemma SameNames(form: Form, other: Form)
    requires PlainContact(form) && PlainContact(other) && Tail(other) == Tail(form)
    ensures other.email == form.email && other.seat == form.seat
    ensures other.firstName + "|" + other.lastName == form.firstName + "|" + form.lastName
  {
    var a := form.firstName + "|" + form.lastName;
    var b := other.firstName + "|" + other.lastName;
    assert Tail(form) == (a + "|" + form.email) + "|" + form.seat;
    assert Tail(other) == (b + "|" + other.email) + "|" + other.seat;
    SplitAtLastBar(a + "|" + form.email, form.seat, b + "|" + other.email, other.seat);
    SplitAtLastBar(a, form.email, b, other.email);
  }

  lemma CollisionCutsNames(isEmail: string -> bool, form: Form, other: Form)
    requires ValidForm(isEmail, form) && PlainContact(form) && ValidForm(isEmail, other) && PlainContact(other)
    requires other != form && Raw(other) == Raw(form)
    ensures NamesCutElsewhere(form)
  {
    SameTail(form, other);
    SameNames(form, other);
    var names := form.firstName + "|" + form.lastName;
    var i := |other.firstName|;
    assert names == other.firstName + "|" + other.lastName;
    assert names[i] == '|' && |names| - i - 1 == |other.lastName|;
    assert form.firstName == names[..|form.firstName|] && form.lastName == names[|form.firstName| + 1..];
    assert other.firstName == names[..i] && other.lastName == names[i + 1..];
  }

  lemma CutNamesCollide(form: Form, i: nat) returns (other: Form)
    requires Clean(form.eventId) && i < |form.firstName + "|" + form.lastName| && i != |form.firstName|
    requires (form.firstName + "|" + form.lastName)[i] == '|'
    ensures other == form.(firstName := (form.firstName + "|" + form.lastName)[..i],
                           lastName := (form.firstName + "|" + form.lastName)[i + 1..])
    ensures other != form && Raw(other) == Raw(form)
  {
    var names := form.firstName + "|" + form.lastName;
    other := form.(firstName := names[..i], lastName := names[i + 1..]);
    assert names == other.firstName + "|" + other.lastName;
    assert Tail(other) == (names + "|" + form.email) + "|" + form.seat == Tail(form);
    SameTail(form, other);
    assert |other.firstName| == i;
  }

  /** For requests whose e-mail and seat are free of the separator, only the names matter: a
      valid request collides exactly when its joined names can be cut at another place that
      leaves 1 to 100 characters on both sides. */
  lemma NamesCollideIff(isEmail: string -> bool, form: Form)
    requires ValidForm(isEmail, form) && PlainContact(form)
    ensures (exists other: Form ::
               ValidForm(isEmail, other) && PlainContact(other) && other != form && Raw(other) == Raw(form))
            <==> NamesCutElsewhere(form)
  {
    if other: Form :| ValidForm(isEmail, other) && PlainContact(other) && other != form && Raw(other) == Raw(form) {
      CollisionCutsNames(isEmail, form, other);
    }
    if NamesCutElsewhere(form) {
      var names := form.firstName + "|" + form.lastName;
      var i :| 0 <= i < |names| && i != |form.firstName| && names[i] == '|' && 1 <= i <= MAX_NAME &&
        1 <= |names| - i - 1 <= MAX_NAME;
      var other := CutNamesCollide(form, i);
      assert ValidForm(isEmail, other) && PlainContact(other);
    }
  }

  /** Two requests that pass validation, differ, and share a fingerprint under any hash. */
  lemma AmbiguousNames(sha256: string -> string, isEmail: string -> bool, eventId: string)
    requires Clean(eventId) && isEmail("a@b.ru")
    ensures var a := Form(eventId, "Anna|Maria", "Petrova", "a@b.ru", "A1");
            var b := Form(eventId, "Anna", "Maria|Petrova", "a@b.ru", "A1");
            && ValidForm(isEmail, a) && ValidForm(isEmail, b) && a != b
            && RequestHash(sha256, a) == RequestHash(sha256, b)
  {
    NamesShift(eventId, "Anna", "Maria", "Petrova", "a@b.ru", "A1");
    assert "Anna" + "|" + "Maria" == "Anna|Maria";
    assert "Maria" + "|" + "Petrova" == "Maria|Petrova";
    assert |"Anna"| < |"Anna|Maria"|;
  }

  /** A separator in a name need not collide: any other cut leaves no first name. */
  lemma LoneSeparator(isEmail: string -> bool, eventId: string)
    requires Clean(eventId) && isEmail("a@b.ru")
    ensures var form := Form(eventId, "|", "A", "a@b.ru", "A1");
            ValidForm(isEmail, form) && !CleanForm(form) && !Collides(isEmail, form)
  {
    var form := Form(eventId, "|", "A", "a@b.ru", "A1");
    assert Fields(form)[1] == "|" && !Clean("|");
    var tail := Tail(form);
    assert tail == "||A|a@b.ru|A1";
    assert forall i :: 0 <= i < |tail| && tail[i] == '|' ==> i == 0 || i == 1 || i == 3 || i == 10;
    assert OwnCuts(form) == (1, 3, 10);
    CollidesIff(isEmail, form);
  }
}
