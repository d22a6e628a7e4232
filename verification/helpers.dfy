/** The front-end formatting helpers: `formatDuration`, `truncate`, and the status badge and
    colour lookups. */
module Helpers {
  import opened Outcomes
  import opened Text

  // ---- formatDuration ----

  /** JavaScript's `%`: the remainder takes the sign of the dividend. */
  function JsRem(a: int, b: int): (r: int)
    requires b > 0
    ensures a >= 0 ==> 0 <= r < b
    ensures a < 0 ==> -b < r <= 0
  {
    if a >= 0 then a % b else -((-a) % b)
  }

  datatype Unit = Hours | Minutes | Seconds

  function UnitChar(u: Unit): char {
    match u
    case Hours => 'h'
    case Minutes => 'm'
    case Seconds => 's'
  }

  function UnitSeconds(u: Unit): nat {
    match u
    case Hours => 3600
    case Minutes => 60
    case Seconds => 1
  }

  /** One part of a rendered duration, such as `2m`. */
  datatype Part = Part(amount: int, unit: Unit)

  function Token(p: Part): string {
    IntToString(p.amount) + [UnitChar(p.unit)]
  }

  /** `parts.join(' ')` of the rendered parts. */
  function Render(parts: seq<Part>): string {
    if |parts| == 0 then ""
    else if |parts| == 1 then Token(parts[0])
    else Token(parts[0]) + " " + Render(parts[1..])
  }

  /** The parts `formatDuration` pushes for a non-zero number of seconds. */
  function DurationParts(seconds: int): seq<Part> {
    var hours := seconds / 3600;
    var minutes := JsRem(seconds, 3600) / 60;
    var secs := JsRem(seconds, 60);
    var larger := (if hours > 0 then [Part(hours, Hours)] else []) + (if minutes > 0 then [Part(minutes, Minutes)] else []);
    if secs > 0 || |larger| == 0 then larger + [Part(secs, Seconds)] else larger
  }

  /** `formatDuration`: `None` stands for `null`/`undefined`. */
  function FormatDuration(seconds: Option<int>): (r: string)
    ensures seconds.None? || seconds == Some(0) ==> r == "0s"
    ensures |r| >= 2
  {
    if seconds.None? || seconds.value == 0 then "0s"
    else Render(DurationParts(seconds.value))
  }

  /** The value a list of parts denotes. */
  function Total(parts: seq<Part>): int {
    if |parts| == 0 then 0 else parts[0].amount * UnitSeconds(parts[0].unit) + Total(parts[1..])
  }

  /** The remainder modulo 60 is determined by any quotient-remainder split. */
  lemma Mod60Unique(x: int, q: int, r: int)
    requires 0 <= r < 60 && x == q * 60 + r
    ensures x % 60 == r
  {
  }

  /** A positive count splits into hours, minutes below 60 and seconds below 60. */
  lemma Decompose(seconds: int)
    requires seconds > 0
    ensures var hours := seconds / 3600;
      var minutes := JsRem(seconds, 3600) / 60;
      var secs := JsRem(seconds, 60);
      && hours >= 0 && 0 <= minutes < 60 && 0 <= secs < 60
      && seconds == hours * 3600 + minutes * 60 + secs
  {
    var hours := seconds / 3600;
    var rest := seconds % 3600;
    var minutes := rest / 60;
    var secs := rest % 60;
    assert seconds == hours * 3600 + rest;
    assert rest == minutes * 60 + secs;
    Mod60Unique(seconds, hours * 60 + minutes, secs);
  }

  /** The parts of a positive duration: each amount positive, units strictly from hours down to
      seconds, minutes and seconds below 60, and together they add up to the input. */
  lemma DurationPartsShape(seconds: int)
    requires seconds > 0
    ensures var ps := DurationParts(seconds);
      && 1 <= |ps| <= 3
      && Total(ps) == seconds
      && (forall i | 0 <= i < |ps| :: ps[i].amount > 0)
      && (forall i, j | 0 <= i < j < |ps| :: UnitSeconds(ps[i].unit) > UnitSeconds(ps[j].unit))
      && (forall i | 0 <= i < |ps| && ps[i].unit != Hours :: ps[i].amount < 60)
  {
    Decompose(seconds);
    var hours := seconds / 3600;
    var minutes := JsRem(seconds, 3600) / 60;
    var secs := JsRem(seconds, 60);
    var h := if hours > 0 then [Part(hours, Hours)] else [];
    var m := if minutes > 0 then [Part(minutes, Minutes)] else [];
    var larger := h + m;
    assert Total(larger) == (if hours > 0 then hours * 3600 else 0) + (if minutes > 0 then minutes * 60 else 0) by {
      var one := [Part(minutes, Minutes)];
      assert Total(one) == minutes * 60 by { assert one[1..] == []; }
      if hours > 0 && minutes > 0 {
        assert larger[1..] == one;
      } else if hours > 0 {
        assert larger[1..] == [];
      } else if minutes > 0 {
        assert larger == one;
      } else {
        assert larger == [];
      }
    }
    if secs > 0 || |larger| == 0 {
      TotalAppend(larger, Part(secs, Seconds));
    }
  }

  lemma {:induction false} TotalAppend(ps: seq<Part>, p: Part)
    ensures Total(ps + [p]) == Total(ps) + p.amount * UnitSeconds(p.unit)
    decreases |ps|
  {
    if |ps| > 0 {
      assert (ps + [p])[1..] == ps[1..] + [p];
      TotalAppend(ps[1..], p);
    }
  }

  predicate HasSeconds(ps: seq<Part>) {
    |ps| > 0 && ps[|ps| - 1].unit == Seconds
  }

  /** The hour and minute parts are emitted exactly when their amount is positive; the seconds
      part when its amount is, or when nothing else was emitted. */
  lemma SecondsPartRule(seconds: int)
    requires seconds != 0
    ensures var ps := DurationParts(seconds);
      var hours := seconds / 3600;
      var minutes := JsRem(seconds, 3600) / 60;
      var secs := JsRem(seconds, 60);
      && (HasSeconds(ps) <==> secs > 0 || (hours <= 0 && minutes <= 0))
      && (Part(hours, Hours) in ps <==> hours > 0)
      && (Part(minutes, Minutes) in ps <==> minutes > 0)
  {
  }

  /** A negative input renders as its remainder seconds alone, `-0` printing as `0`. */
  lemma NegativeDuration(seconds: int)
    requires seconds < 0
    ensures FormatDuration(Some(seconds)) == IntToString(JsRem(seconds, 60)) + "s"
  {
    assert seconds / 3600 < 0;
    assert JsRem(seconds, 3600) / 60 <= 0;
  }

  // ---- reading a rendered duration back ----

  /** Index of the first space, if any. */
  function FirstSpace(s: string): (r: Option<nat>)
    ensures r.Some? ==> r.value < |s| && s[r.value] == ' '
    ensures r.Some? ==> forall j | 0 <= j < r.value :: s[j] != ' '
    ensures r.None? ==> forall j | 0 <= j < |s| :: s[j] != ' '
  {
    if |s| == 0 then None
    else if s[0] == ' ' then Some(0)
    else match FirstSpace(s[1..])
      case None => None
      case Some(k) => Some(k + 1)
  }

  function ParseUnit(c: char): Option<Unit> {
    if c == 'h' then Some(Hours) else if c == 'm' then Some(Minutes) else if c == 's' then Some(Seconds) else None
  }

  /** Reads one `<digits><unit>` token. */
  function ParseToken(t: string): Option<Part> {
    if |t| < 2 || !AllDigits(t[..|t| - 1]) || ParseUnit(t[|t| - 1]).None? then None
    else Some(Part(ParseNat(t[..|t| - 1]), ParseUnit(t[|t| - 1]).value))
  }

  /** Reads a space-separated list of tokens: the partner of `Render`. */
  function ParseParts(s: string): Option<seq<Part>>
    decreases |s|
  {
    match FirstSpace(s)
    case None => (if ParseToken(s).None? then None else Some([ParseToken(s).value]))
    case Some(i) =>
      match ParseToken(s[..i])
      case None => None
      case Some(p) =>
        match ParseParts(s[i + 1..])
        case None => None
        case Some(rest) => Some([p] + rest)
  }

  /** The duration a rendered string denotes. */
  function ParseDuration(s: string): Option<int> {
    match ParseParts(s)
    case None => None
    case Some(ps) => Some(Total(ps))
  }

  lemma ParseTokenOf(p: Part)
    requires p.amount >= 0
    ensures ParseToken(Token(p)) == Some(p)
    ensures forall j | 0 <= j < |Token(p)| :: Token(p)[j] != ' '
  {
    var t := Token(p);
    assert t[..|t| - 1] == NatToString(p.amount);
    ParseNatToString(p.amount);
  }

  /** The first space after a space-free token is the separator that follows it. */
  lemma FirstSpaceAfterToken(t: string, rest: string)
    requires forall j | 0 <= j < |t| :: t[j] != ' '
    ensures FirstSpace(t + " " + rest) == Some(|t|)
  {
    var s := t + " " + rest;
    assert s[|t|] == ' ';
    assert forall j | 0 <= j < |t| :: s[j] == t[j];
  }

  /** A token followed by a separator: the token is read first, then the rest. */
  lemma ParseAfterToken(t: string, rest: string, p: Part)
    requires forall j | 0 <= j < |t| :: t[j] != ' '
    requires ParseToken(t) == Some(p)
    requires ParseParts(rest).Some?
    ensures ParseParts(t + " " + rest) == Some([p] + ParseParts(rest).value)
  {
    var s := t + " " + rest;
    FirstSpaceAfterToken(t, rest);
    assert s[..|t|] == t;
    assert s[|t| + 1..] == rest;
  }

  /** A lone space-free token is read as a one-element list. */
  lemma ParseSingle(p: Part)
    requires p.amount >= 0
    ensures ParseParts(Token(p)) == Some([p])
  {
    ParseTokenOf(p);
    assert FirstSpace(Token(p)) == None;
  }

  lemma {:induction false} ParseRender(ps: seq<Part>)
    requires |ps| > 0
    requires forall i | 0 <= i < |ps| :: ps[i].amount >= 0
    ensures ParseParts(Render(ps)) == Some(ps)
    decreases |ps|
  {
    if |ps| == 1 {
      assert Render(ps) == Token(ps[0]);
      ParseSingle(ps[0]);
      assert ps == [ps[0]];
    } else {
      var t := Token(ps[0]);
      var rest := Render(ps[1..]);
      assert Render(ps) == t + " " + rest;
      ParseTokenOf(ps[0]);
      ParseRender(ps[1..]);
      ParseAfterToken(t, rest, ps[0]);
      assert [ps[0]] + ps[1..] == ps;
    }
  }

  /** Reading back what `formatDuration` renders for a non-negative count gives the count. */
  lemma FormatDurationRoundTrip(seconds: nat)
    ensures ParseDuration(FormatDuration(Some(seconds))) == Some(seconds)
  {
    if seconds == 0 {
      ParseTokenOf(Part(0, Seconds));
      assert Token(Part(0, Seconds)) == "0s";
      assert FirstSpace("0s") == None;
    } else {
      DurationPartsShape(seconds);
      ParseRender(DurationParts(seconds));
    }
  }

  // ---- truncate ----

  /** `text.substring(0, n)`: negative ends clamp to 0, long ones to the length. */
  function Substring0(text: string, n: int): (r: string)
    ensures |r| == if n <= 0 then 0 else if n >= |text| then |text| else n
    ensures r == text[..|r|]
  {
    if n <= 0 then "" else if n >= |text| then text else text[..n]
  }

  /** `truncate(text, length)`: `None` stands for `null`/`undefined`. */
  function Truncate(text: Option<string>, length: int): (r: string)
    ensures text.None? || text == Some("") ==> r == ""
    ensures text.Some? && |text.value| <= length ==> r == text.value
    ensures text.Some? && text.value != "" && |text.value| > length ==>
      && |r| == (if length <= 0 then 0 else length) + 3
      && StartsWith(r, text.value[..if length <= 0 then 0 else length])
      && r[|r| - 3..] == "..."
  {
    if text.None? || text.value == "" then ""
    else if |text.value| <= length then text.value
    else Substring0(text.value, length) + "..."
  }

  /** `truncate` with its default length of 50. */
  function TruncateDefault(text: Option<string>): (r: string)
    ensures |r| <= 53
  {
    Truncate(text, 50)
  }

  /** A result of `truncate` never exceeds the length plus the ellipsis, and without its
      ellipsis it is a prefix of the text. */
  lemma TruncateBounds(text: Option<string>, length: nat)
    ensures |Truncate(text, length)| <= length + 3
    ensures text.Some? && |text.value| <= length ==> Truncate(text, length) == text.value
    ensures text.Some? && |text.value| > length ==>
      var r := Truncate(text, length);
      |r| >= 3 && r[|r| - 3..] == "..." && StartsWith(text.value, r[..|r| - 3])
  {
  }

  // ---- status badges and colours ----

  const DefaultBadge: string := "badge-gray"
  const DefaultColor: string := "text-gray-600 bg-gray-50"

  /** The badge table; `None` for a word not in it. */
  function BadgeOf(status: string): Option<string> {
    if status == "success" then Some("badge-success")
    else if status == "failed" then Some("badge-error")
    else if status == "running" then Some("badge-info")
    else if status == "pending" then Some("badge-warning")
    else if status == "cancelled" then Some("badge-gray")
    else if status == "active" then Some("badge-success")
    else if status == "inactive" then Some("badge-gray")
    else None
  }

  function ColorOf(status: string): Option<string> {
    if status == "success" then Some("text-green-600 bg-green-50")
    else if status == "failed" then Some("text-red-600 bg-red-50")
    else if status == "running" then Some("text-blue-600 bg-blue-50")
    else if status == "pending" then Some("text-yellow-600 bg-yellow-50")
    else if status == "cancelled" then Some("text-gray-600 bg-gray-50")
    else if status == "active" then Some("text-green-600 bg-green-50")
    else if status == "inactive" then Some("text-gray-600 bg-gray-50")
    else None
  }

  /** The seven words both tables know. */
  predicate Known(status: string) {
    status in {"success", "failed", "running", "pending", "cancelled", "active", "inactive"}
  }

  function GetStatusBadge(status: string): (r: string)
    ensures StartsWith(r, "badge ")
    ensures !Known(status) ==> r == "badge " + DefaultBadge
    ensures Known(status) ==> BadgeOf(status).Some? && r == "badge " + BadgeOf(status).value
  {
    "badge " + BadgeOf(status).GetOr(DefaultBadge)
  }

  function GetStatusColor(status: string): (r: string)
    ensures !Known(status) ==> r == DefaultColor
    ensures Known(status) ==> ColorOf(status).Some? && r == ColorOf(status).value
  {
    ColorOf(status).GetOr(DefaultColor)
  }

  /** The badge and the colour of a word agree on its tone: a `badge-gray` word is gray, a
      `badge-success` word is green. */
  lemma BadgeAndColorAgree(status: string)
    ensures GetStatusBadge(status) == "badge badge-gray" <==> GetStatusColor(status) == DefaultColor
    ensures GetStatusBadge(status) == "badge badge-success" <==> GetStatusColor(status) == "text-green-600 bg-green-50"
  {
  }
}
