/** The t.me link parser of the message handler: the first
    `https?://t\.me/(?:c/(\d+)|([a-zA-Z0-9_]+))/(\d+)` match in a message's text,
    and the chat identifier and message id read from its groups. Digits are the
    ASCII ones. */
module Links {
  import opened Wrappers
  import opened Decimal

  /** The two character classes the pattern repeats: `\d` and `[a-zA-Z0-9_]`. */
  datatype CharClass = Digits | Word

  predicate InClass(c: char, cls: CharClass) {
    match cls
    case Digits => IsDigit(c)
    case Word => IsDigit(c) || 'a' <= c <= 'z' || 'A' <= c <= 'Z' || c == '_'
  }

  predicate AllIn(s: string, cls: CharClass) {
    forall k :: 0 <= k < |s| ==> InClass(s[k], cls)
  }

  /** The length of the longest run of `cls` characters starting at `i`: what a
      greedy `+` or `*` consumes. */
  function Run(s: string, i: nat, cls: CharClass): (n: nat)
    requires i <= |s|
    ensures i + n <= |s|
    ensures forall k :: i <= k < i + n ==> InClass(s[k], cls)
    ensures i + n == |s| || !InClass(s[i + n], cls)
    decreases |s| - i
  {
    if i < |s| && InClass(s[i], cls) then 1 + Run(s, i + 1, cls) else 0
  }

  /** A run of `cls` characters ended by the end of text or a character outside
      the class is exactly what `Run` measures. */
  lemma {:induction false} RunIs(s: string, i: nat, n: nat, cls: CharClass)
    requires i + n <= |s|
    requires forall k :: i <= k < i + n ==> InClass(s[k], cls)
    requires i + n == |s| || !InClass(s[i + n], cls)
    ensures Run(s, i, cls) == n
    decreases n
  {
    if n > 0 {
      RunIs(s, i + 1, n - 1, cls);
    }
  }

  predicate HasAt(s: string, i: nat, lit: string) {
    i + |lit| <= |s| && s[i..i + |lit|] == lit
  }

  /** The groups of one match: the private channel's digits or the public
      username, and the message digits. */
  datatype ChatRef = PrivateChat(digits: string) | PublicChat(username: string)

  datatype TmeLink = TmeLink(chat: ChatRef, msgDigits: string)

  /** What the pattern's groups can hold. */
  predicate ValidLink(l: TmeLink) {
    && |l.msgDigits| > 0 && AllIn(l.msgDigits, Digits)
    && match l.chat
       case PrivateChat(d) => |d| > 0 && AllIn(d, Digits)
       case PublicChat(u) => |u| > 0 && AllIn(u, Word)
  }

  const HTTPS_HOST: string := "https://t.me/"
  const HTTP_HOST: string := "http://t.me/"

  /** `https?://t\.me/` at `i`: where the path starts. */
  function HostEnd(s: string, i: nat): (r: Option<nat>)
    ensures r.Some? ==> r.value <= |s|
    ensures r.Some? <==> HasAt(s, i, HTTPS_HOST) || HasAt(s, i, HTTP_HOST)
  {
    if HasAt(s, i, HTTPS_HOST) then Some(i + |HTTPS_HOST|)
    else if HasAt(s, i, HTTP_HOST) then Some(i + |HTTP_HOST|)
    else None
  }

  /** `/(\d+)` at `j`: the message digits, as many as there are. */
  function MsgAt(s: string, j: nat): (r: Option<string>)
    requires j <= |s|
    ensures r.Some? ==> |r.value| > 0 && AllIn(r.value, Digits)
  {
    if j < |s| && s[j] == '/' && Run(s, j + 1, Digits) > 0 then Some(s[j + 1..j + 1 + Run(s, j + 1, Digits)])
    else None
  }

  /** The pattern anchored at `i`: the host, then the path. */
  function MatchAt(s: string, i: nat): (r: Option<TmeLink>)
    requires i <= |s|
    ensures r.Some? ==> ValidLink(r.value)
  {
    match HostEnd(s, i)
    case None => None
    case Some(p) => MatchPath(s, p)
  }

  /** `(?:c/(\d+)|([a-zA-Z0-9_]+))/(\d+)` at `p`. The private alternative is tried
      first; both runs are greedy and must be followed by '/', so backtracking into
      them can never help, and a failed private alternative falls back to reading
      `c` as a username. */
  function MatchPath(s: string, p: nat): (r: Option<TmeLink>)
    requires p <= |s|
    ensures r.Some? ==> ValidLink(r.value)
  {
    if PrivateAt(s, p).Some? then PrivateAt(s, p) else PublicAt(s, p)
  }

  /** `c/(\d+)/(\d+)` at `p`. */
  function PrivateAt(s: string, p: nat): (r: Option<TmeLink>)
    requires p <= |s|
    ensures r.Some? ==> ValidLink(r.value) && r.value.chat.PrivateChat?
  {
    var d := if HasAt(s, p, "c/") then Run(s, p + 2, Digits) else 0;
    var m := if d > 0 then MsgAt(s, p + 2 + d) else None;
    if m.Some? then Some(TmeLink(PrivateChat(s[p + 2..p + 2 + d]), m.value)) else None
  }

  /** `([a-zA-Z0-9_]+)/(\d+)` at `p`. */
  function PublicAt(s: string, p: nat): (r: Option<TmeLink>)
    requires p <= |s|
    ensures r.Some? ==> ValidLink(r.value) && r.value.chat.PublicChat?
  {
    var w := Run(s, p, Word);
    var m := if w > 0 then MsgAt(s, p + w) else None;
    if m.Some? then Some(TmeLink(PublicChat(s[p..p + w]), m.value)) else None
  }

  /** The match, if any, at every position of the text. */
  function Matches(s: string): (ms: seq<Option<TmeLink>>)
    ensures |ms| == |s| + 1 && forall k :: 0 <= k <= |s| ==> ms[k] == MatchAt(s, k)
  {
    seq(|s| + 1, k requires 0 <= k <= |s| => MatchAt(s, k))
  }

  /** `re.search`: the match at the leftmost position where the pattern matches;
      nothing when it matches nowhere. */
  function Search(s: string): (r: Option<TmeLink>)
    ensures r.None? <==> forall k :: 0 <= k <= |s| ==> MatchAt(s, k).None?
    ensures r.Some? ==> ValidLink(r.value)
    ensures r.Some? ==> exists j :: 0 <= j <= |s| && r == MatchAt(s, j) && forall k :: 0 <= k < j ==> MatchAt(s, k).None?
  {
    var ms := Matches(s);
    var r := FirstSome(ms);
    assert r.Some? ==> ValidLink(r.value);
    r
  }

  /** The chat a link names: `int(f"-100{private_id}")` or the username itself. */
  datatype ChatId = ChatNumber(n: int) | ChatName(name: string)

  function ChatIdentifier(c: ChatRef): (r: ChatId)
    requires c.PrivateChat? ==> AllIn(c.digits, Digits)
    ensures c.PublicChat? <==> r.ChatName?
  {
    match c
    case PrivateChat(d) =>
      HundredPrefix(d);
      ChatNumber(-(DigitsValue("100" + d) as int))
    case PublicChat(u) => ChatName(u)
  }

  lemma HundredPrefix(d: string)
    requires AllIn(d, Digits)
    ensures AllDigits("100" + d)
  {
    var s := "100" + d;
    forall k | 0 <= k < |s| ensures IsDigit(s[k]) {
      if k >= 3 {
        assert s[k] == d[k - 3];
      }
    }
  }

  /** What the handler reads from a message's text: the chat identifier and the
      message id (`int(msg_id)`) of the first link, if there is one. */
  function ParseLink(text: string): (r: Option<(ChatId, nat)>)
    ensures r.None? <==> forall j :: 0 <= j <= |text| ==> MatchAt(text, j).None?
    ensures r.Some? && r.value.0.ChatNumber? ==> r.value.0.n < 0
  {
    match Search(text)
    case None => None
    case Some(l) =>
      if l.chat.PrivateChat? then
        PrivateChatIsMinus100(l.chat.digits);
        Some((ChatIdentifier(l.chat), DigitsValue(l.msgDigits)))
      else Some((ChatIdentifier(l.chat), DigitsValue(l.msgDigits)))
  }

  /** A message holding a rendered link, followed by text that cannot continue it,
      names that link's chat and message: a private channel by its "-100" number,
      a public one by its username unchanged. */
  lemma ParseRenderedLink(l: TmeLink, secure: bool, rest: string)
    requires ValidLink(l) && (|rest| == 0 || !(IsDigit(rest[0]) || rest[0] == '/'))
    ensures ParseLink(Render(l, secure) + rest) == Some((ChatIdentifier(l.chat), DigitsValue(l.msgDigits)))
    ensures l.chat.PublicChat? ==> ChatIdentifier(l.chat) == ChatName(l.chat.username)
    ensures l.chat.PrivateChat? ==> IntToString(ChatIdentifier(l.chat).n) == "-100" + l.chat.digits
  {
    RenderRoundTrip(l, secure, rest);
    if l.chat.PrivateChat? {
      PrivateChatIsMinus100(l.chat.digits);
    }
  }

  /** A private channel's identifier is negative and its decimal text is "-100"
      followed by exactly the digits of the link, leading zeros included. */
  lemma PrivateChatIsMinus100(d: string)
    requires |d| > 0 && AllIn(d, Digits)
    ensures ChatIdentifier(PrivateChat(d)).n < 0
    ensures IntToString(ChatIdentifier(PrivateChat(d)).n) == "-100" + d
  {
    var s := "100" + d;
    HundredPrefix(d);
    assert Canonical(s);
    CanonicalValuePositive(s);
    CanonicalRoundTrip(s);
  }

  function Host(secure: bool): string {
    if secure then HTTPS_HOST else HTTP_HOST
  }

  /** The path a link's groups were read from. */
  function PathText(l: TmeLink): string {
    (match l.chat case PrivateChat(d) => "c/" + d case PublicChat(u) => u) + "/" + l.msgDigits
  }

  /** The text of a link, with either scheme. */
  function Render(l: TmeLink, secure: bool): string {
    Host(secure) + PathText(l)
  }

  lemma HasAtJoin(s: string, i: nat, x: string, y: string)
    requires HasAt(s, i, x) && HasAt(s, i + |x|, y)
    ensures HasAt(s, i, x + y)
  {
    assert s[i..i + |x| + |y|] == s[i..i + |x|] + s[i + |x|..i + |x| + |y|];
  }

  lemma HasAtSplit(s: string, i: nat, x: string, y: string)
    requires HasAt(s, i, x + y)
    ensures HasAt(s, i, x) && HasAt(s, i + |x|, y)
  {
    assert s[i..i + |x|] == s[i..i + |x| + |y|][..|x|];
    assert s[i + |x|..i + |x| + |y|] == s[i..i + |x| + |y|][|x|..];
  }

  lemma HasAtChars(s: string, i: nat, x: string)
    requires HasAt(s, i, x)
    ensures forall k :: 0 <= k < |x| ==> s[i + k] == x[k]
  {
    forall k | 0 <= k < |x| ensures s[i + k] == x[k] {
      assert s[i + k] == s[i..i + |x|][k];
    }
  }

  lemma HasAtHead(s: string, i: nat, x: string)
    requires HasAt(s, i, x) && |x| > 0
    ensures s[i] == x[0]
  {
    assert s[i] == s[i..i + |x|][0];
  }

  /** A greedy run over text known to be there, ended by a character outside the
      class, is exactly that text. */
  lemma RunOf(s: string, i: nat, x: string, cls: CharClass)
    requires HasAt(s, i, x) && AllIn(x, cls)
    requires i + |x| == |s| || !InClass(s[i + |x|], cls)
    ensures Run(s, i, cls) == |x|
  {
    forall k | i <= k < i + |x| ensures InClass(s[k], cls) {
      assert s[k] == s[i..i + |x|][k - i];
    }
    RunIs(s, i, |x|, cls);
  }

  /** The message group read at `j` is the digits that follow the '/' there. */
  lemma MsgAtText(s: string, j: nat)
    requires j <= |s| && MsgAt(s, j).Some?
    ensures HasAt(s, j, "/" + MsgAt(s, j).value)
  {
    HasAtJoin(s, j, "/", MsgAt(s, j).value);
  }

  /** The host matched at `i` is the text of one of the two schemes. */
  lemma HostText(s: string, i: nat)
    requires HostEnd(s, i).Some?
    ensures var secure := HasAt(s, i, HTTPS_HOST);
            HasAt(s, i, Host(secure)) && HostEnd(s, i).value == i + |Host(secure)|
  {
  }

  /** A path match is the text of the link it yields. */
  lemma MatchPathText(s: string, p: nat)
    requires p <= |s| && MatchPath(s, p).Some?
    ensures HasAt(s, p, PathText(MatchPath(s, p).value))
  {
    if PrivateAt(s, p).Some? {
      PrivateText(s, p);
    } else {
      PublicText(s, p);
    }
  }

  lemma PrivateText(s: string, p: nat)
    requires p <= |s| && PrivateAt(s, p).Some?
    ensures HasAt(s, p, PathText(PrivateAt(s, p).value))
  {
    var l := PrivateAt(s, p).value;
    var d := Run(s, p + 2, Digits);
    MsgAtText(s, p + 2 + d);
    HasAtJoin(s, p + 2, l.chat.digits, "/" + l.msgDigits);
    HasAtJoin(s, p, "c/", l.chat.digits + ("/" + l.msgDigits));
    assert "c/" + (l.chat.digits + ("/" + l.msgDigits)) == PathText(l);
  }

  lemma PublicText(s: string, p: nat)
    requires p <= |s| && PublicAt(s, p).Some?
    ensures HasAt(s, p, PathText(PublicAt(s, p).value))
  {
    var l := PublicAt(s, p).value;
    MsgAtText(s, p + Run(s, p, Word));
    HasAtJoin(s, p, l.chat.username, "/" + l.msgDigits);
    assert l.chat.username + ("/" + l.msgDigits) == PathText(l);
  }

  /** A match is the rendering of the link it yields, at the place it was found. */
  lemma MatchIsRendering(s: string, i: nat)
    requires i <= |s| && MatchAt(s, i).Some?
    ensures exists secure :: HasAt(s, i, Render(MatchAt(s, i).value, secure))
  {
    var secure := HasAt(s, i, HTTPS_HOST);
    HostText(s, i);
    var p := HostEnd(s, i).value;
    MatchPathText(s, p);
    HasAtJoin(s, i, Host(secure), PathText(MatchAt(s, i).value));
    assert HasAt(s, i, Render(MatchAt(s, i).value, secure));
  }

  /** Text that cannot extend a link's final digits or start another path step. */
  predicate EndsAt(s: string, e: nat) {
    e >= |s| || !(IsDigit(s[e]) || s[e] == '/')
  }

  /** The message group at `j` is read back exactly when the digits stop at a
      boundary. */
  lemma MsgAtReads(s: string, j: nat, m: string)
    requires HasAt(s, j, "/" + m) && |m| > 0 && AllIn(m, Digits) && EndsAt(s, j + 1 + |m|)
    ensures MsgAt(s, j) == Some(m)
  {
    HasAtSplit(s, j, "/", m);
    HasAtChars(s, j, "/");
    RunOf(s, j + 1, m, Digits);
  }

  /** The path of a valid link, followed by a boundary, is read back as that link. */
  lemma MatchPathReads(s: string, p: nat, l: TmeLink)
    requires ValidLink(l) && HasAt(s, p, PathText(l)) && EndsAt(s, p + |PathText(l)|)
    ensures MatchPath(s, p) == Some(l)
  {
    match l.chat {
      case PrivateChat(d) =>
        assert PathText(l) == "c/" + (d + ("/" + l.msgDigits));
        PrivateReads(s, p, d, l.msgDigits);
      case PublicChat(u) =>
        assert PathText(l) == u + ("/" + l.msgDigits);
        PublicNotPrivate(s, p, u, l.msgDigits);
        PublicReads(s, p, u, l.msgDigits);
    }
  }

  lemma PrivateReads(s: string, p: nat, d: string, m: string)
    requires |d| > 0 && AllIn(d, Digits) && |m| > 0 && AllIn(m, Digits)
    requires HasAt(s, p, "c/" + (d + ("/" + m))) && EndsAt(s, p + 2 + |d| + 1 + |m|)
    ensures PrivateAt(s, p) == Some(TmeLink(PrivateChat(d), m))
  {
    PrivateLayout(s, p, d, m);
    RunOf(s, p + 2, d, Digits);
    MsgAtReads(s, p + 2 + |d|, m);
    PrivateAtIs(s, p, d, m);
  }

  lemma PrivateLayout(s: string, p: nat, d: string, m: string)
    requires |m| > 0 && HasAt(s, p, "c/" + (d + ("/" + m)))
    ensures HasAt(s, p, "c/") && HasAt(s, p + 2, d) && HasAt(s, p + 2 + |d|, "/" + m)
    ensures s[p + 2 + |d|] == '/'
  {
    HasAtSplit(s, p, "c/", d + ("/" + m));
    HasAtSplit(s, p + 2, d, "/" + m);
    HasAtHead(s, p + 2 + |d|, "/" + m);
  }

  lemma PrivateAtIs(s: string, p: nat, d: string, m: string)
    requires HasAt(s, p, "c/") && HasAt(s, p + 2, d) && |d| > 0
    requires Run(s, p + 2, Digits) == |d| && MsgAt(s, p + 2 + |d|) == Some(m)
    ensures PrivateAt(s, p) == Some(TmeLink(PrivateChat(d), m))
  {
  }

  lemma PublicReads(s: string, p: nat, u: string, m: string)
    requires |u| > 0 && AllIn(u, Word) && |m| > 0 && AllIn(m, Digits)
    requires HasAt(s, p, u + ("/" + m)) && EndsAt(s, p + |u| + 1 + |m|)
    ensures PublicAt(s, p) == Some(TmeLink(PublicChat(u), m))
  {
    HasAtSplit(s, p, u, "/" + m);
    HasAtHead(s, p + |u|, "/" + m);
    RunOf(s, p, u, Word);
    MsgAtReads(s, p + |u|, m);
    PublicAtIs(s, p, u, m);
  }

  lemma PublicAtIs(s: string, p: nat, u: string, m: string)
    requires HasAt(s, p, u) && |u| > 0 && Run(s, p, Word) == |u| && MsgAt(s, p + |u|) == Some(m)
    ensures PublicAt(s, p) == Some(TmeLink(PublicChat(u), m))
  {
  }

  /** A username followed by '/' and digits can start like a private link only
      when it is the single letter `c`, and then the '/' the private alternative
      needs after the digits is missing. */
  lemma PublicNotPrivate(s: string, p: nat, u: string, m: string)
    requires |u| > 0 && AllIn(u, Word) && |m| > 0 && AllIn(m, Digits)
    requires HasAt(s, p, u + ("/" + m)) && EndsAt(s, p + |u| + 1 + |m|)
    ensures PrivateAt(s, p).None?
  {
    HasAtChars(s, p, u + ("/" + m));
    if |u| > 1 {
      assert s[p + 1] == u[1] && u[1] != '/';
      assert s[p..p + 2][1] == s[p + 1];
      assert !HasAt(s, p, "c/");
    } else {
      forall k | p + 2 <= k < p + 2 + |m| ensures InClass(s[k], Digits) {
        assert s[k] == (u + ("/" + m))[k - p];
      }
      RunIs(s, p + 2, |m|, Digits);
    }
  }

  /** A rendered link followed by text that cannot continue it is read back as
      that link: the parser inverts `Render`. */
  lemma RenderRoundTrip(l: TmeLink, secure: bool, rest: string)
    requires ValidLink(l) && (|rest| == 0 || !(IsDigit(rest[0]) || rest[0] == '/'))
    ensures MatchAt(Render(l, secure) + rest, 0) == Some(l)
    ensures Search(Render(l, secure) + rest) == Some(l)
  {
    var s := Render(l, secure) + rest;
    var h := Host(secure);
    assert HasAt(s, 0, h + PathText(l)) by {
      assert s[0..|h| + |PathText(l)|] == Render(l, secure);
    }
    HasAtSplit(s, 0, h, PathText(l));
    HostOf(s, secure);
    if |rest| > 0 {
      assert s[|h| + |PathText(l)|] == rest[0];
    }
    MatchPathReads(s, |h|, l);
  }

  lemma HostOf(s: string, secure: bool)
    requires HasAt(s, 0, Host(secure))
    ensures HostEnd(s, 0) == Some(|Host(secure)|)
  {
    if !secure {
      HasAtChars(s, 0, HTTP_HOST);
      assert s[4] == ':';
      assert |s| >= 13 ==> s[0..13][4] == s[4];
      assert !HasAt(s, 0, HTTPS_HOST);
    }
  }
}
