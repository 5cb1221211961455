/** Workspace names (internal/workspace/identity.go, internal/workspace/selector.go), over an abstract digest. */
module Naming {
  import opened Base

  // ----- normalizeSegment -----

  /** strings.ToLower, as far as it matters here: only these characters become ASCII letters. */
  function Lower(c: char): char {
    if 'A' <= c <= 'Z' then c - 'A' + 'a'
    else if c == '\U{0130}' then 'i'
    else if c == '\U{212A}' then 'k'
    else c
  }

  function ToLower(s: string): string {
    seq(|s|, i requires 0 <= i < |s| => Lower(s[i]))
  }

  predicate Safe(c: char) {
    'a' <= c <= 'z' || '0' <= c <= '9'
  }

  /** The longest prefix of characters that are all safe, or all unsafe. */
  function RunLength(s: string, safe: bool): (n: nat)
    ensures n <= |s| && (forall i | 0 <= i < n :: Safe(s[i]) == safe) && (n < |s| ==> Safe(s[n]) != safe)
  {
    if s == "" || Safe(s[0]) != safe then 0 else 1 + RunLength(s[1..], safe)
  }

  /** Every maximal run of unsafe characters becomes one hyphen. */
  function ReplaceUnsafe(s: string): string {
    if s == "" then ""
    else if Safe(s[0]) then [s[0]] + ReplaceUnsafe(s[1..])
    else "-" + ReplaceUnsafe(s[RunLength(s, false)..])
  }

  function TrimLeft(s: string): string {
    if s != "" && s[0] == '-' then TrimLeft(s[1..]) else s
  }

  function TrimRight(s: string): string {
    if s != "" && Last(s) == '-' then TrimRight(s[..|s| - 1]) else s
  }

  function NormalizeSegment(s: string, maxLen: nat): string {
    var t := TrimRight(TrimLeft(ReplaceUnsafe(ToLower(s))));
    var u := if |t| > maxLen then TrimRight(t[..maxLen]) else t;
    if u == "" then "x" else u
  }

  // ----- What it means: the words of the input, joined -----

  predicate IsWord(w: string) {
    w != "" && forall i | 0 <= i < |w| :: Safe(w[i])
  }

  predicate AllWords(ws: seq<string>) {
    forall i | 0 <= i < |ws| :: IsWord(ws[i])
  }

  /** The maximal runs of safe characters. */
  function Words(s: string): (ws: seq<string>)
    ensures AllWords(ws)
    decreases |s|
  {
    if s == "" then []
    else if Safe(s[0]) then [s[..RunLength(s, true)]] + Words(s[RunLength(s, true)..])
    else Words(s[1..])
  }

  function Join(ws: seq<string>): string {
    if ws == [] then "" else if |ws| == 1 then ws[0] else ws[0] + "-" + Join(ws[1..])
  }

  /** Non-empty alphanumeric runs joined by single hyphens. */
  predicate IsSegment(s: string) {
    && s != ""
    && (forall i | 0 <= i < |s| :: Safe(s[i]) || s[i] == '-')
    && s[0] != '-' && Last(s) != '-'
    && forall i | 0 <= i < |s| - 1 :: !(s[i] == '-' && s[i + 1] == '-')
  }

  lemma {:induction false} JoinIsSegment(ws: seq<string>)
    requires ws != [] && AllWords(ws)
    ensures IsSegment(Join(ws))
  {
    assert IsWord(ws[0]);
    if |ws| > 1 {
      forall i | 0 <= i < |ws[1..]| ensures IsWord(ws[1..][i]) {
        assert IsWord(ws[i + 1]);
      }
      JoinIsSegment(ws[1..]);
    }
  }

  lemma {:induction false} TrimRightOfSum(a: string, b: string)
    ensures TrimRight(a + b) == if TrimRight(b) == "" then TrimRight(a) else a + TrimRight(b)
  {
    if b == "" {
      assert a + b == a;
    } else if Last(b) == '-' {
      assert (a + b)[..|a + b| - 1] == a + b[..|b| - 1];
      TrimRightOfSum(a, b[..|b| - 1]);
    }
  }

  lemma {:induction false} ReplaceAfterSafe(s: string)
    ensures var n := RunLength(s, true); ReplaceUnsafe(s) == s[..n] + ReplaceUnsafe(s[n..])
  {
    if s != "" && Safe(s[0]) {
      ReplaceAfterSafe(s[1..]);
      var n := RunLength(s[1..], true);
      assert s[1..][..n] == s[1..n + 1] && s[1..][n..] == s[n + 1..];
    }
  }

  lemma {:induction false} WordsAfterUnsafe(s: string)
    ensures Words(s) == Words(s[RunLength(s, false)..])
  {
    if s != "" && !Safe(s[0]) {
      WordsAfterUnsafe(s[1..]);
      assert s[1..][RunLength(s[1..], false)..] == s[RunLength(s, false)..];
    }
  }

  /** A word, a run of unsafe characters, and the rest from the next word on. */
  lemma FirstWord(s: string, w: string, rest: string, u: string)
    requires s != "" && Safe(s[0]) && w == s[..RunLength(s, true)] && rest == s[|w|..]
    requires u == rest[RunLength(rest, false)..]
    ensures |u| < |s| && (u == "" || Safe(u[0]))
    ensures ReplaceUnsafe(s) == if rest == "" then w else w + "-" + ReplaceUnsafe(u)
    ensures Words(s) == [w] + Words(u)
  {
    ReplaceAfterSafe(s);
    WordsAfterUnsafe(rest);
    UnsafeRest(w, rest, u);
  }

  lemma UnsafeRest(w: string, rest: string, u: string)
    requires rest == "" || !Safe(rest[0])
    requires u == rest[RunLength(rest, false)..]
    ensures w + ReplaceUnsafe(rest) == if rest == "" then w else w + "-" + ReplaceUnsafe(u)
  {
    assert w + ("-" + ReplaceUnsafe(u)) == w + "-" + ReplaceUnsafe(u);
  }

  /** From a safe start on, replacing and trimming joins the words. */
  lemma {:induction false} TrimmedReplacementJoins(s: string)
    requires s == "" || Safe(s[0])
    ensures TrimRight(ReplaceUnsafe(s)) == Join(Words(s))
    decreases |s|
  {
    if s != "" {
      var w := s[..RunLength(s, true)];
      var rest := s[|w|..];
      var u := rest[RunLength(rest, false)..];
      FirstWord(s, w, rest, u);
      TrimmedReplacementJoins(u);
      TrimWordAndRest(w, ReplaceUnsafe(u), Words(u));
      assert rest == "" ==> Words(u) == [] && TrimRight(w) == w;
    }
  }

  lemma TrimWordAndRest(w: string, r: string, ws: seq<string>)
    requires w != "" && Last(w) != '-' && AllWords(ws) && TrimRight(r) == Join(ws)
    ensures TrimRight(w + "-" + r) == Join([w] + ws)
    ensures TrimRight(w) == w
  {
    assert TrimRight(w + "-") == w by {
      assert (w + "-")[..|w|] == w;
    }
    TrimRightOfSum(w + "-", r);
    JoinOneMore(w, ws);
  }

  lemma JoinOneMore(w: string, ws: seq<string>)
    requires AllWords(ws)
    ensures Join([w] + ws) == if ws == [] then w else w + "-" + Join(ws)
    ensures Join(ws) == "" <==> ws == []
  {
    assert ([w] + ws)[1..] == ws;
    if ws != [] {
      JoinIsSegment(ws);
    }
  }

  /** Without the length limit, normalizing is joining the words of the lower-cased input with single hyphens. */
  lemma ReplacementJoinsWords(s: string)
    ensures TrimRight(TrimLeft(ReplaceUnsafe(s))) == Join(Words(s))
  {
    var u := s[RunLength(s, false)..];
    TrimmedReplacementJoins(u);
    WordsAfterUnsafe(s);
    if s != "" && !Safe(s[0]) {
      assert ("-" + ReplaceUnsafe(u))[1..] == ReplaceUnsafe(u);
    } else {
      assert u == s;
    }
    assert TrimLeft(ReplaceUnsafe(u)) == ReplaceUnsafe(u);
  }

  /** A segment has no two hyphens together, so cutting it off loses one at most. */
  lemma CutSegment(s: string, n: nat)
    requires IsSegment(s) && 0 < n <= |s|
    ensures TrimRight(s[..n]) == if s[n - 1] == '-' then s[..n - 1] else s[..n]
  {
    if s[n - 1] == '-' {
      assert s[..n][..n - 1] == s[..n - 1] && s[n - 2] != '-';
    }
  }

  lemma {:induction false} TrimmedPrefixIsSegment(s: string, n: nat)
    requires IsSegment(s) && 0 < n <= |s|
    ensures IsSegment(TrimRight(s[..n])) && |TrimRight(s[..n])| <= n && TrimRight(s[..n]) <= s
  {
    var p := s[..n];
    if Last(p) == '-' {
      assert p[..n - 1] == s[..n - 1];
      TrimmedPrefixIsSegment(s, n - 1);
    }
  }

  /** A normalized segment is alphanumeric runs joined by single hyphens, of at most the given length, and comes from the input's words. */
  lemma NormalizedIsSegment(s: string, maxLen: nat)
    requires maxLen > 0
    ensures var r, words := NormalizeSegment(s, maxLen), Words(ToLower(s));
      && IsSegment(r) && |r| <= maxLen
      && (words == [] ==> r == "x")
      && (words != [] ==> r <= Join(words))
      && (words != [] && |Join(words)| <= maxLen ==> r == Join(words))
      && (words != [] && |Join(words)| > maxLen ==>
            r == if Join(words)[maxLen - 1] == '-' then Join(words)[..maxLen - 1] else Join(words)[..maxLen])
  {
    ReplacementJoinsWords(ToLower(s));
    var words := Words(ToLower(s));
    if words != [] {
      JoinIsSegment(words);
      if |Join(words)| > maxLen {
        TrimmedPrefixIsSegment(Join(words), maxLen);
        CutSegment(Join(words), maxLen);
      }
    }
  }

  /** Safe characters and hyphens, no two of these together and none at the end. */
  predicate HyphenatedRuns(s: string) {
    && (forall i | 0 <= i < |s| :: Safe(s[i]) || s[i] == '-')
    && (s != "" ==> Last(s) != '-')
    && forall i | 0 < i < |s| :: s[i - 1] != '-' || s[i] != '-'
  }

  lemma LoneHyphen(s: string)
    requires |s| > 1 && s[0] == '-' && Safe(s[1])
    ensures RunLength(s, false) == 1
  {
    assert s[1..][0] == s[1];
  }

  lemma RestOfRuns(s: string)
    requires s != "" && HyphenatedRuns(s)
    ensures HyphenatedRuns(s[1..])
  {
    var t := s[1..];
    forall i | 0 < i < |t| ensures t[i - 1] != '-' || t[i] != '-' {
      assert s[i + 1 - 1] != '-' || s[i + 1] != '-';
    }
  }

  lemma {:induction false} RunsAreUnchanged(s: string)
    requires HyphenatedRuns(s)
    ensures ReplaceUnsafe(s) == s
  {
    if s != "" {
      RestOfRuns(s);
      RunsAreUnchanged(s[1..]);
      if !Safe(s[0]) {
        assert s[1 - 1] != '-' || s[1] != '-';
        LoneHyphen(s);
      }
    }
  }

  /** A segment that fits is its own normal form, so normalizing twice is normalizing once. */
  lemma NormalizeIsIdempotent(s: string, maxLen: nat)
    requires maxLen > 0
    ensures IsSegment(s) && |s| <= maxLen ==> NormalizeSegment(s, maxLen) == s
    ensures NormalizeSegment(NormalizeSegment(s, maxLen), maxLen) == NormalizeSegment(s, maxLen)
  {
    NormalizedIsSegment(s, maxLen);
    FittingSegmentIsNormal(NormalizeSegment(s, maxLen), maxLen);
    if IsSegment(s) && |s| <= maxLen {
      FittingSegmentIsNormal(s, maxLen);
    }
  }

  lemma FittingSegmentIsNormal(s: string, maxLen: nat)
    requires IsSegment(s) && |s| <= maxLen
    ensures NormalizeSegment(s, maxLen) == s
  {
    assert ToLower(s) == s;
    forall i | 0 < i < |s| ensures s[i - 1] != '-' || s[i] != '-' {
      assert !(s[i - 1] == '-' && s[i - 1 + 1] == '-');
    }
    RunsAreUnchanged(s);
  }

  /** The same characters, but for the case of ASCII letters. */
  predicate SameButCase(s: string, t: string) {
    |s| == |t| && forall i | 0 <= i < |s| :: s[i] == t[i] || CaseOf(s[i], t[i]) || CaseOf(t[i], s[i])
  }

  predicate CaseOf(upper: char, lower: char) {
    'A' <= upper <= 'Z' && lower as int == upper as int + 32
  }

  /** Upper and lower case make no difference, and lower-case letters and digits are kept. */
  lemma NormalizeIgnoresCase(s: string, t: string, maxLen: nat)
    requires SameButCase(s, t)
    ensures NormalizeSegment(s, maxLen) == NormalizeSegment(t, maxLen)
    ensures forall i | 0 <= i < |s| && Safe(s[i]) :: ToLower(s)[i] == s[i]
  {
    forall i | 0 <= i < |s| ensures ToLower(s)[i] == ToLower(t)[i] {
      assert s[i] == t[i] || CaseOf(s[i], t[i]) || CaseOf(t[i], s[i]);
    }
    assert ToLower(s) == ToLower(t);
  }

  /** The two other characters whose lower case is an ASCII letter count as that letter. */
  lemma TwoMoreLettersHaveLowerCase(maxLen: nat)
    requires maxLen > 0
    ensures NormalizeSegment("\U{0130}", maxLen) == "i" && NormalizeSegment("\U{212A}", maxLen) == "k"
  {
    assert ToLower("\U{0130}") == "i" && ToLower("\U{212A}") == "k";
    OneLetterIsNormal("i");
    OneLetterIsNormal("k");
  }

  lemma OneLetterIsNormal(s: string)
    requires |s| == 1 && Safe(s[0])
    ensures ReplaceUnsafe(s) == s && TrimLeft(s) == s && TrimRight(s) == s
  {
    assert s[1..] == "" && [s[0]] + "" == s;
  }

  // ----- Names -----

  const MAX_SEGMENT_LEN := 26

  datatype Identity = Identity(githubUser: string, sshUser: string)

  predicate IsHex(c: char) {
    'a' <= c <= 'f' || '0' <= c <= '9'
  }

  /** The digest is the first six hexadecimal digits of a hash; nothing else is known of it. */
  ghost predicate IsDigest(digest: string -> string) {
    forall s: string :: |digest(s)| == 6 && forall i | 0 <= i < 6 :: IsHex(digest(s)[i])
  }

  function Canonical(id: Identity): string {
    id.githubUser + "/" + id.sshUser
  }

  function WorkspaceID(digest: string -> string, id: Identity): string {
    "vs-" + NormalizeSegment(id.githubUser, MAX_SEGMENT_LEN) + "-" + NormalizeSegment(id.sshUser, MAX_SEGMENT_LEN)
    + "-" + digest(Canonical(id))
  }

  function PodName(workspaceID: string, mode: StorageMode): string {
    var name := "shell-" + workspaceID;
    if mode.Ephemeral? then name + "-ephemeral" else name
  }

  function PVCName(workspaceID: string): string {
    "home-" + workspaceID
  }

  function PodNameFor(digest: string -> string, id: Identity, mode: StorageMode): string {
    PodName(WorkspaceID(digest, id), mode)
  }

  /** The names of an identity whose parts need no normalizing. */
  lemma NamesOfSegments(digest: string -> string, gh: string, ssh: string)
    requires IsSegment(gh) && |gh| <= 26 && IsSegment(ssh) && |ssh| <= 26
    ensures var id := Identity(gh, ssh);
      var name := "vs-" + gh + "-" + ssh + "-" + digest(gh + "/" + ssh);
      && WorkspaceID(digest, id) == name && PVCName(name) == "home-" + name
      && PodNameFor(digest, id, Persistent) == "shell-" + name
      && PodNameFor(digest, id, Ephemeral) == "shell-" + name + "-ephemeral"
  {
    FittingSegmentIsNormal(gh, 26);
    FittingSegmentIsNormal(ssh, 26);
  }

  /** A label in the sense of section 2.1 of RFC 1123, and of section 2.3.4 of RFC 1035: it starts with a letter. */
  predicate IsLabel(s: string) {
    && 1 <= |s| <= 63
    && (forall i | 0 <= i < |s| :: Safe(s[i]) || s[i] == '-')
    && 'a' <= s[0] <= 'z' && Last(s) != '-'
  }

  lemma WorkspaceIDIsLabel(digest: string -> string, id: Identity)
    requires IsDigest(digest)
    ensures IsLabel(WorkspaceID(digest, id))
    ensures |PodNameFor(digest, id, Persistent)| <= 69 && |PodNameFor(digest, id, Ephemeral)| <= 79
  {
    NormalizedIsSegment(id.githubUser, MAX_SEGMENT_LEN);
    NormalizedIsSegment(id.sshUser, MAX_SEGMENT_LEN);
    var gh, ssh := NormalizeSegment(id.githubUser, MAX_SEGMENT_LEN), NormalizeSegment(id.sshUser, MAX_SEGMENT_LEN);
    var d := digest(Canonical(id));
    assert |d| == 6 && IsHex(d[5]);
    var s := WorkspaceID(digest, id);
    forall i | 0 <= i < |s| ensures Safe(s[i]) || s[i] == '-' {
      if i >= |s| - 6 {
        assert s[i] == d[i - (|s| - 6)] && IsHex(d[i - (|s| - 6)]);
      }
    }
    assert Last(s) == d[5];
  }

  /** The bounds are attained, by any digest: two names of 26 characters are enough. */
  lemma BoundsAreAttained(digest: string -> string) returns (id: Identity)
    requires IsDigest(digest)
    ensures |WorkspaceID(digest, id)| == 63 && |PodNameFor(digest, id, Ephemeral)| == 79
  {
    var name := seq(26, _ => 'a');
    FittingSegmentIsNormal(name, 26);
    id := Identity(name, name);
    assert |digest(Canonical(id))| == 6;
  }

  // ----- Selecting a workspace -----

  datatype Selector = Selector(mode: StorageMode, name: string)

  const PERSISTENT_PREFIX := "persist."

  function ParseSelector(username: string): Selector {
    if PERSISTENT_PREFIX <= username && |username| > 8 then Selector(Persistent, username[8..])
    else Selector(Ephemeral, username)
  }

  predicate IsAlphanumeric(c: char) {
    'a' <= c <= 'z' || 'A' <= c <= 'Z' || '0' <= c <= '9'
  }

  /** The usernames that the server accepts. */
  predicate ValidUsername(s: string) {
    && 1 <= |s| <= 63 && IsAlphanumeric(s[0])
    && forall i | 0 <= i < |s| :: IsAlphanumeric(s[i]) || s[i] in "._-"
  }

  /** Accepted usernames can be joined, also by a dot, an underscore or a hyphen, or end in one, up to 63 characters. */
  lemma UsernamesJoin(s: string, t: string, c: char)
    requires ValidUsername(s) && ValidUsername(t) && |s| + |t| <= 63
    ensures ValidUsername(s + t)
    ensures |s| < 63 && (c == '.' || c == '_' || c == '-') ==> ValidUsername(s + [c])
    ensures |s| + |t| < 63 && (c == '.' || c == '_' || c == '-') ==> ValidUsername(s + [c] + t)
    ensures ValidUsername([c]) <==> IsAlphanumeric(c)
    ensures !ValidUsername(s + "/" + t)
  {
    assert (s + "/" + t)[|s|] == '/';
  }

  /** The SSH username that selects a workspace. */
  function Username(s: Selector): string {
    if s.mode.Persistent? then PERSISTENT_PREFIX + s.name else s.name
  }

  lemma SelectorIsUndone(username: string)
    ensures Username(ParseSelector(username)) == username
  {
    if PERSISTENT_PREFIX <= username && |username| > 8 {
      assert username[..8] == PERSISTENT_PREFIX;
    }
  }

  /** A username selects persistent storage exactly if it is the prefix and a name, and then that name. */
  lemma SelectorIsExact(username: string, name: string)
    ensures ParseSelector(username) == Selector(Persistent, name) <==> name != "" && username == "persist." + name
    ensures ParseSelector(username) == Selector(Ephemeral, name) <==>
      name == username && !(|username| > 8 && username[..8] == "persist.")
  {
    if PERSISTENT_PREFIX <= username && |username| > 8 {
      assert username == username[..8] + username[8..];
    }
    if username == "persist." + name {
      assert username[8..] == name && username[..8] == "persist.";
    }
  }

  /** Stripping the prefix of an accepted username leaves a name that would be accepted exactly if it starts alphanumeric. */
  lemma StrippedNameMayBeInvalid(username: string)
    requires ValidUsername(username) && ParseSelector(username).mode.Persistent?
    ensures var name := ParseSelector(username).name;
      && name != ""
      && (ValidUsername(name) <==> IsAlphanumeric(name[0]))
      && forall i | 0 <= i < |name| :: IsAlphanumeric(name[i]) || name[i] in "._-"
    ensures ValidUsername("persist.-x") && ParseSelector("persist.-x") == Selector(Persistent, "-x") && !ValidUsername("-x")
  {
    var name := ParseSelector(username).name;
    forall i | 0 <= i < |name| ensures IsAlphanumeric(name[i]) || name[i] in "._-" {
      assert name[i] == username[i + 8];
    }
    assert "persist.-x"[8..] == "-x";
  }

  // ----- From session to pod -----

  /** The pod of a session: GitHub account and SSH username. */
  function PodOf(digest: string -> string, githubUser: string, username: string): string {
    var s := ParseSelector(username);
    PodNameFor(digest, Identity(githubUser, s.name), s.mode)
  }

  lemma SlashBehind(a: string, b: string, j: int)
    requires |a| < j < |a + "/" + b| && (a + "/" + b)[j] == '/'
    ensures '/' in b
  {
    assert b[j - |a| - 1] == '/';
  }

  /** The part after the last slash is determined by the whole. */
  lemma CanonicalIsInjective(a: Identity, b: Identity)
    requires '/' !in a.sshUser && '/' !in b.sshUser && Canonical(a) == Canonical(b)
    ensures a == b
  {
    var s := Canonical(a);
    var i, j := |a.githubUser|, |b.githubUser|;
    assert s[i] == '/' && s[j] == '/';
    if i < j {
      SlashBehind(a.githubUser, a.sshUser, j);
    } else if j < i {
      SlashBehind(b.githubUser, b.sshUser, i);
    } else {
      assert s[i + 1..] == a.sshUser && s[j + 1..] == b.sshUser;
      assert s[..i] == a.githubUser && s[..j] == b.githubUser;
    }
  }

  /** An ephemeral and a persistent pod never share a name, whatever the identities and however the digests collide. */
  lemma ModesNeverShareAName(digest: string -> string, a: Identity, b: Identity)
    requires IsDigest(digest)
    ensures PodNameFor(digest, a, Ephemeral) != PodNameFor(digest, b, Persistent)
  {
    var p, q := PodNameFor(digest, a, Ephemeral), PodNameFor(digest, b, Persistent);
    assert Last(p) == 'l';
    assert |digest(Canonical(b))| == 6 && IsHex(digest(Canonical(b))[5]) && Last(q) == digest(Canonical(b))[5];
  }

  /** Names of one mode are shared only through the digest, which is their last part. */
  lemma NameEndsWithDigest(digest: string -> string, a: Identity, b: Identity, mode: StorageMode)
    requires IsDigest(digest) && PodNameFor(digest, a, mode) == PodNameFor(digest, b, mode)
    ensures digest(Canonical(a)) == digest(Canonical(b)) && WorkspaceID(digest, a) == WorkspaceID(digest, b)
  {
    var v, w := WorkspaceID(digest, a), WorkspaceID(digest, b);
    PodNameKeepsID(v, w, mode);
    WorkspaceIDEndsWithDigest(digest, a);
    WorkspaceIDEndsWithDigest(digest, b);
  }

  lemma PodNameKeepsID(v: string, w: string, mode: StorageMode)
    requires PodName(v, mode) == PodName(w, mode)
    ensures v == w
  {
    assert PodName(v, mode)[6..6 + |v|] == v && PodName(w, mode)[6..6 + |w|] == w;
  }

  lemma WorkspaceIDEndsWithDigest(digest: string -> string, id: Identity)
    requires IsDigest(digest)
    ensures |WorkspaceID(digest, id)| >= 6 && WorkspaceID(digest, id)[|WorkspaceID(digest, id)| - 6..] == digest(Canonical(id))
  {
    assert |digest(Canonical(id))| == 6;
  }

  /**
   Two sessions with accepted usernames share a pod exactly when they have the same GitHub account and SSH username,
   unless the digest collides on their canonical strings.
   */
  lemma SessionsSharePodsOnlyAsIntended(digest: string -> string, gh1: string, user1: string, gh2: string, user2: string)
    requires IsDigest(digest) && '/' !in user1 && '/' !in user2
    requires var a, b := Identity(gh1, ParseSelector(user1).name), Identity(gh2, ParseSelector(user2).name);
      digest(Canonical(a)) == digest(Canonical(b)) ==> Canonical(a) == Canonical(b)
    ensures PodOf(digest, gh1, user1) == PodOf(digest, gh2, user2) <==> gh1 == gh2 && user1 == user2
  {
    if PodOf(digest, gh1, user1) == PodOf(digest, gh2, user2) {
      var s, t := ParseSelector(user1), ParseSelector(user2);
      var a, b := Identity(gh1, s.name), Identity(gh2, t.name);
      if s.mode != t.mode {
        ModesNeverShareAName(digest, a, b);
        ModesNeverShareAName(digest, b, a);
      }
      NameEndsWithDigest(digest, a, b, s.mode);
      CanonicalIsInjective(a, b);
      SelectorIsUndone(user1);
      SelectorIsUndone(user2);
    }
  }

  // ----- From session to PVC -----

  /** The claim of an identity. */
  function ClaimOf(digest: string -> string, id: Identity): string {
    PVCName(WorkspaceID(digest, id))
  }

  lemma PVCNameKeepsID(v: string, w: string)
    requires PVCName(v) == PVCName(w)
    ensures v == w
  {
    assert PVCName(v)[5..] == v && PVCName(w)[5..] == w;
  }

  /** Two identities have the same claim exactly if they are the same, unless the digest collides on them. */
  lemma ClaimsAreTheIdentities(digest: string -> string, a: Identity, b: Identity)
    requires IsDigest(digest) && '/' !in a.sshUser && '/' !in b.sshUser
    requires digest(Canonical(a)) == digest(Canonical(b)) ==> Canonical(a) == Canonical(b)
    ensures ClaimOf(digest, a) == ClaimOf(digest, b) <==> a == b
  {
    if ClaimOf(digest, a) == ClaimOf(digest, b) {
      PVCNameKeepsID(WorkspaceID(digest, a), WorkspaceID(digest, b));
      WorkspaceIDEndsWithDigest(digest, a);
      WorkspaceIDEndsWithDigest(digest, b);
      CanonicalIsInjective(a, b);
    }
  }

  /** Two persistent sessions mount the same home exactly if they have the same GitHub account and SSH username. */
  lemma SessionsShareHomesOnlyAsIntended(digest: string -> string, gh1: string, user1: string, gh2: string, user2: string)
    requires IsDigest(digest) && '/' !in user1 && '/' !in user2
    requires ParseSelector(user1).mode.Persistent? && ParseSelector(user2).mode.Persistent?
    requires var a, b := Identity(gh1, ParseSelector(user1).name), Identity(gh2, ParseSelector(user2).name);
      digest(Canonical(a)) == digest(Canonical(b)) ==> Canonical(a) == Canonical(b)
    ensures var a, b := Identity(gh1, ParseSelector(user1).name), Identity(gh2, ParseSelector(user2).name);
      ClaimOf(digest, a) == ClaimOf(digest, b) <==> gh1 == gh2 && user1 == user2
  {
    var a, b := Identity(gh1, ParseSelector(user1).name), Identity(gh2, ParseSelector(user2).name);
    ClaimsAreTheIdentities(digest, a, b);
    SelectorIsUndone(user1);
    SelectorIsUndone(user2);
  }

  // ----- The workspace in a name -----

  /** A workspace ID is not empty and ends with a hexadecimal digit: all that is needed to tell the modes apart. */
  predicate EndsInHex(workspace: string) {
    workspace != "" && IsHex(Last(workspace))
  }

  lemma WorkspaceIDEndsInHex(digest: string -> string, id: Identity)
    requires IsDigest(digest)
    ensures EndsInHex(WorkspaceID(digest, id))
  {
    var d := digest(Canonical(id));
    assert |d| == 6 && IsHex(d[5]);
    assert Last(WorkspaceID(digest, id)) == d[5];
  }

  /** The PVC that goes with a pod name, if it is one of a persistent workspace. */
  function ClaimFor(podName: string): Option<string> {
    if |podName| > 6 && IsHex(Last(podName)) then Some(PVCName(podName[6..])) else None
  }

  lemma ClaimForIsTheWorkspaces(workspace: string, mode: StorageMode)
    requires EndsInHex(workspace)
    ensures ClaimFor(PodName(workspace, mode)) == if mode.Persistent? then Some(PVCName(workspace)) else None
  {
    var name := PodName(workspace, mode);
    if mode.Persistent? {
      assert name[6..] == workspace && Last(name) == Last(workspace);
    } else {
      assert Last(name) == 'l';
    }
  }
}
