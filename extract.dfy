/**
 * The three handlers that only pull a value out of the question with a
 * regular expression: the Docker image tag, the httpie e-mail parameter and
 * the command of the CLI simulation.
 *
 * Each `re.search` is modelled as the leftmost position where the pattern
 * matches, with the group the backtracking matcher reports there.
 */
module Extract {
  import opened Text

  /** The lower-case word `p` occurs at `i`, ignoring case (`re.IGNORECASE`;
      no character outside ASCII folds to the letters used here). */
  predicate WordAt(s: string, p: string, i: nat)
  {
    i + |p| <= |s| && Lower(s[i..i + |p|]) == p
  }

  /** `re.search`: the first position from `i` on where a match starts,
      given whether one starts at each position. */
  function Leftmost(hits: seq<bool>, i: nat): (r: Option<nat>)
    ensures r.None? <==> forall j :: i <= j < |hits| ==> !hits[j]
    ensures r.Some? ==> i <= r.value < |hits| && hits[r.value]
    ensures r.Some? ==> forall m :: i <= m < r.value ==> !hits[m]
    decreases |hits| - i
  {
    if i >= |hits| then None
    else if hits[i] then Some(i)
    else Leftmost(hits, i + 1)
  }

  // ---------------------------------------------------------------------------
  // Docker: `tag\s+named\s+(\d+)`, else `(\d+)`, else a fixed id

  const DEFAULT_ID := "22f3002248"

  /** The group of `tag\s+named\s+(\d+)` matched at `i`, if it matches
      there. Each `\s+` must be followed by a non-space, so only its longest
      run can succeed, and the greedy `\d+` takes the whole digit run. */
  function TagNamedAt(q: string, i: nat): (r: Option<string>)
    ensures r.Some? ==> |r.value| > 0 && AllDigits(r.value)
    ensures r.Some? ==> WordAt(q, "tag", i)
  {
    if !WordAt(q, "tag", i) then None
    else
      var j := i + 3;
      var w1 := LeadingSpaces(q[j..]);
      if w1 == 0 || !WordAt(q, "named", j + w1) then None
      else
        var k := j + w1 + 5;
        var w2 := LeadingSpaces(q[k..]);
        var n := LeadingDigits(q[k + w2..]);
        if w2 == 0 || n == 0 then None
        else
          assert q[k + w2..][..n] == q[k + w2..k + w2 + n];
          Some(q[k + w2..k + w2 + n])
  }

  /** `re.search`: the leftmost position from `i` on where the pattern
      matches. */
  function SearchTagNamed(q: string): (r: Option<nat>)
    ensures r.None? <==> forall j :: 0 <= j <= |q| ==> TagNamedAt(q, j).None?
    ensures r.Some? ==> r.value <= |q| && TagNamedAt(q, r.value).Some?
    ensures r.Some? ==> forall m :: 0 <= m < r.value ==> TagNamedAt(q, m).None?
  {
    var hits := seq(|q| + 1, j requires 0 <= j <= |q| => TagNamedAt(q, j).Some?);
    assert forall j :: 0 <= j <= |q| ==> (hits[j] <==> TagNamedAt(q, j).Some?);
    Leftmost(hits, 0)
  }


  /** `re.search(r'(\d+)', q)`: the leftmost run of digits. */
  function FirstDigitRun(q: string): (r: Option<string>)
    ensures r.None? <==> NoDigits(q)
    ensures r.Some? ==> |r.value| > 0 && AllDigits(r.value)
    decreases |q|
  {
    if q == [] then None
    else if IsDigit(q[0]) then
      var n := LeadingDigits(q);
      Some(q[..n])
    else
      var r := FirstDigitRun(q[1..]);
      assert NoDigits(q) <==> NoDigits(q[1..]) by {
        assert forall k :: 1 <= k < |q| ==> q[k] == q[1..][k - 1];
      }
      r
  }

  /** The fallback is the first run `re.findall(r'\d+', q)` would list. */
  lemma {:induction false} FirstDigitRunIsFirstOfAll(q: string)
    ensures FirstDigitRun(q).None? <==> DigitRuns(q) == []
    ensures FirstDigitRun(q).Some? ==> FirstDigitRun(q).value == DigitRuns(q)[0]
    decreases |q|
  {
    if q != [] && !IsDigit(q[0]) {
      FirstDigitRunIsFirstOfAll(q[1..]);
    }
  }

  /** `student_id` */
  function StudentId(q: string): (id: string)
    ensures |id| > 0
  {
    match SearchTagNamed(q)
    case Some(i) => TagNamedAt(q, i).value
    case None =>
      match FirstDigitRun(q)
      case Some(d) => d
      case None => DEFAULT_ID
  }

  /** The id is the tag's digits when the question names one, else the
      first digits in it, else the fixed default. */
  lemma StudentIdCases(q: string)
    ensures (exists i :: 0 <= i <= |q| && TagNamedAt(q, i).Some?) ==>
      AllDigits(StudentId(q)) && exists i :: 0 <= i <= |q| && TagNamedAt(q, i) == Some(StudentId(q))
    ensures (forall i :: 0 <= i <= |q| ==> TagNamedAt(q, i).None?) && !NoDigits(q) ==>
      Some(StudentId(q)) == FirstDigitRun(q)
    ensures (forall i :: 0 <= i <= |q| ==> TagNamedAt(q, i).None?) && NoDigits(q) ==>
      StudentId(q) == DEFAULT_ID
  {
  }

  /** A match of the tag pattern holds a digit of the question. */
  lemma TagNamedHasDigit(q: string, i: nat)
    ensures TagNamedAt(q, i).Some? ==> !NoDigits(q)
  {
    if TagNamedAt(q, i).Some? {
      var j := i + 3;
      var k := j + LeadingSpaces(q[j..]) + 5;
      var p := k + LeadingSpaces(q[k..]);
      assert q[p] == q[p..][0];
      assert IsDigit(q[p]);
    }
  }

  /** Without a digit the default id is used. */
  lemma NoDigitsDefault(q: string)
    requires NoDigits(q)
    ensures StudentId(q) == DEFAULT_ID
  {
    forall i | 0 <= i <= |q| ensures TagNamedAt(q, i).None? {
      TagNamedHasDigit(q, i);
    }
  }

  datatype Push = Push(url: string, repository: string, tag: string, pushCommand: string)

  /** The success envelope of `_process_docker_image_push`; `username` is
      `DOCKER_USERNAME` from the environment. */
  function DockerImagePush(q: string, username: string): (p: Push)
    ensures p.tag == StudentId(q)
    ensures p.repository == username + "/tds-assignment-" + p.tag
    ensures p.url == "https://hub.docker.com/repository/docker/" + p.repository + "/general"
    ensures p.pushCommand == "docker push " + p.repository + ":" + p.tag
  {
    var id := StudentId(q);
    var repo := username + "/tds-assignment-" + id;
    Push("https://hub.docker.com/repository/docker/" + repo + "/general", repo, id, "docker push " + repo + ":" + id)
  }

  /** The repository name ends with the image tag, so the tag can be read
      back from it. */
  lemma RepositoryEndsWithTag(q: string, username: string)
    ensures var p := DockerImagePush(q, username);
      EndsWith(p.repository, p.tag) && p.repository[..|p.repository| - |p.tag|] == username + "/tds-assignment-"
  {
  }

  // ---------------------------------------------------------------------------
  // httpie: `email set to (\S+)` and the fixed URL

  const EMAIL_SET_TO := "email set to "
  const HTTPBIN := "https://httpbin.org/get"
  const NO_EMAIL_OR_URL := "Unable to extract email or URL from the question"

  /** Length of the run of non-space characters at the start of `s`. */
  function LeadingNonSpaces(s: string): (n: nat)
    ensures n <= |s|
    ensures forall k :: 0 <= k < n ==> !IsSpace(s[k])
    ensures n < |s| ==> IsSpace(s[n])
  {
    if |s| > 0 && !IsSpace(s[0]) then 1 + LeadingNonSpaces(s[1..]) else 0
  }

  /** The group of `email set to (\S+)` matched at `i`. */
  function EmailAt(q: string, i: nat): (r: Option<string>)
    ensures r.Some? ==> |r.value| > 0 && forall k :: 0 <= k < |r.value| ==> !IsSpace(r.value[k])
  {
    if !MatchesAt(q, EMAIL_SET_TO, i) then None
    else
      var j := i + |EMAIL_SET_TO|;
      var n := LeadingNonSpaces(q[j..]);
      if n == 0 then None
      else
        assert q[j..][..n] == q[j..j + n];
        Some(q[j..j + n])
  }

  function SearchEmail(q: string): (r: Option<nat>)
    ensures r.None? <==> forall j :: 0 <= j <= |q| ==> EmailAt(q, j).None?
    ensures r.Some? ==> r.value <= |q| && EmailAt(q, r.value).Some?
    ensures r.Some? ==> forall m :: 0 <= m < r.value ==> EmailAt(q, m).None?
  {
    var hits := seq(|q| + 1, j requires 0 <= j <= |q| => EmailAt(q, j).Some?);
    assert forall j :: 0 <= j <= |q| ==> (hits[j] <==> EmailAt(q, j).Some?);
    Leftmost(hits, 0)
  }


  /** The e-mail `re.search` reports. */
  function Email(q: string): Option<string>
  {
    match SearchEmail(q)
    case Some(i) => EmailAt(q, i)
    case None => None
  }

  datatype Request = Request(fullUrl: string, command: string) | RequestFailure(message: string)

  /** `_process_httpie_request` up to the request: the URL it fetches and
      the command it reports. */
  function HttpieRequest(q: string): (r: Request)
    ensures r == RequestFailure(NO_EMAIL_OR_URL) <==> Email(q).None? || !Contains(q, HTTPBIN)
    ensures r.Request? ==> r.fullUrl == HTTPBIN + "?email=" + Email(q).value
    ensures r.Request? ==> r.command == "uv run --with httpie -- " + r.fullUrl
  {
    match Email(q)
    case None => RequestFailure(NO_EMAIL_OR_URL)
    case Some(email) =>
      if !Contains(q, HTTPBIN) then RequestFailure(NO_EMAIL_OR_URL)
      else
        var url := HTTPBIN + "?email=" + email;
        Request(url, "uv run --with httpie -- " + url)
  }

  /** The e-mail is the URL's query value: non-empty, without spaces, and
      read back by dropping the fixed prefix. */
  lemma HttpieEmailRoundTrip(q: string)
    requires HttpieRequest(q).Request?
    ensures var url := HttpieRequest(q).fullUrl;
      var email := url[|HTTPBIN + "?email="|..];
      StartsWith(url, HTTPBIN + "?email=") && Some(email) == Email(q) &&
      |email| > 0 && forall k :: 0 <= k < |email| ==> !IsSpace(email[k])
  {
    var url := HttpieRequest(q).fullUrl;
    var prefix := HTTPBIN + "?email=";
    assert url == prefix + Email(q).value;
    assert url[..|prefix|] == prefix;
  }

  // ---------------------------------------------------------------------------
  // CLI simulation: `type\s+(.+?)\s+and`

  // The two messages are each written as two shorter literals: the verifier
  // does not see the characters of one long string literal, and the lemmas
  // below tell messages apart by a character.
  const NO_COMMAND := "Unable to extract CLI " + "command from the question"
  const KEY_ERROR := "Error processing CLI " + "command simulation: 'output'"
  const UNRECOGNIZED := "Unrecognized command: "
  const SYNC_OUTPUT :=
    "Settings Sync is turned on\n    ------------------------\n    * Signed in: user@example.com\n" +
    "    * Profile: Default\n    * Synchronizing: Settings, Extensions, Keybindings, Snippets\n" +
    "    * Last Sync: 2024-03-28 10:15:32\n    * Sync Status: Up to date\n" +
    "    * Machine ID: VSC-12345-67890\n    ------------------------\n" +
    "    Sync will continue running in the background"

  /** `\s+and` matches at `p`: the whitespace run there is not empty and
      `and` follows it. */
  predicate AndAt(q: string, p: nat)
    requires p <= |q|
  {
    var k := LeadingSpaces(q[p..]);
    k >= 1 && WordAt(q, "and", p + k)
  }

  /** Where `\s+and` matches, position by position. */
  function Ands(q: string): (a: seq<bool>)
    ensures |a| == |q| + 1 && forall p :: 0 <= p <= |q| ==> (a[p] <==> AndAt(q, p))
  {
    seq(|q| + 1, p requires 0 <= p <= |q| => AndAt(q, p))
  }

  /** The lazy `.+?` from `s`: the shortest group of at least `len`
      characters after which `\s+and` matches (`ands`), as long as no line
      feed is passed. */
  function LazyGroup(q: string, ands: seq<bool>, s: nat, len: nat): (r: Option<nat>)
    requires |ands| == |q| + 1 && 1 <= len
    ensures r.Some? ==> len <= r.value && s + r.value <= |q| && ands[s + r.value]
    decreases |q| + 1 - (s + len)
  {
    if s + len > |q| || q[s + len - 1] == '\n' then None
    else if ands[s + len] then Some(len)
    else LazyGroup(q, ands, s, len + 1)
  }

  /** The group is the shortest that works: it holds no line feed, and
      `\s+and` matches after no shorter one. */
  lemma {:induction false} LazyGroupShortest(q: string, ands: seq<bool>, s: nat, len: nat)
    requires |ands| == |q| + 1 && 1 <= len
    requires forall k :: s <= k < s + len - 1 && k < |q| ==> q[k] != '\n'
    ensures var r := LazyGroup(q, ands, s, len);
      r.Some? ==> forall k :: s <= k < s + r.value ==> q[k] != '\n'
    ensures var r := LazyGroup(q, ands, s, len);
      r.Some? ==> forall m :: s + len <= m < s + r.value ==> !ands[m]
    decreases |q| + 1 - (s + len)
  {
    if s + len <= |q| && q[s + len - 1] != '\n' && !ands[s + len] {
      LazyGroupShortest(q, ands, s, len + 1);
    }
  }

  /** The greedy `\s+` after `type` giving back one character at a time:
      widths `w` down to 1 are tried, the first to fit decides. */
  function TryWidths(q: string, i: nat, w: nat): (r: Option<string>)
    requires i + 4 + w <= |q|
    ensures r.Some? ==> |r.value| > 0
    decreases w
  {
    if w == 0 then None
    else match LazyGroup(q, Ands(q), i + 4 + w, 1)
      case Some(len) => Some(q[i + 4 + w..i + 4 + w + len])
      case None => TryWidths(q, i, w - 1)
  }

  /** The group of `type\s+(.+?)\s+and` matched at `i`. */
  function CommandAt(q: string, i: nat): (r: Option<string>)
    ensures r.Some? ==> WordAt(q, "type", i) && |r.value| > 0
  {
    if !WordAt(q, "type", i) then None
    else TryWidths(q, i, LeadingSpaces(q[i + 4..]))
  }

  function SearchCommand(q: string): (r: Option<nat>)
    ensures r.None? <==> forall j :: 0 <= j <= |q| ==> CommandAt(q, j).None?
    ensures r.Some? ==> r.value <= |q| && CommandAt(q, r.value).Some?
    ensures r.Some? ==> forall m :: 0 <= m < r.value ==> CommandAt(q, m).None?
  {
    var hits := seq(|q| + 1, j requires 0 <= j <= |q| => CommandAt(q, j).Some?);
    assert forall j :: 0 <= j <= |q| ==> (hits[j] <==> CommandAt(q, j).Some?);
    Leftmost(hits, 0)
  }


  /** The group `re.search` reports. */
  function Command(q: string): Option<string>
  {
    match SearchCommand(q)
    case Some(i) => CommandAt(q, i)
    case None => None
  }

  datatype Simulation = Simulated(command: string, answer: string) | SimulationFailure(message: string)

  /** The reply to an extracted command, as written: for a command without
      `code -s` the fallback dict has no `output`, and the lookup raises. */
  function ReplyAsWritten(command: string): Simulation
  {
    if Contains(Lower(command), "code -s") then Simulated(command, SYNC_OUTPUT)
    else SimulationFailure(KEY_ERROR)
  }

  /** The reply the fallback dict evidently intends: an unrecognised command
      is reported by name. */
  function Reply(command: string): (r: Simulation)
    ensures r.Simulated? <==> Contains(Lower(command), "code -s")
    ensures r.Simulated? ==> r == Simulated(command, SYNC_OUTPUT)
    ensures !r.Simulated? ==> r == SimulationFailure(UNRECOGNIZED + command)
  {
    if Contains(Lower(command), "code -s") then Simulated(command, SYNC_OUTPUT)
    else SimulationFailure(UNRECOGNIZED + command)
  }

  lemma ReplyIsNotNoCommand(command: string)
    ensures Reply(command) != SimulationFailure(NO_COMMAND)
  {
    assert NO_COMMAND[2] != UNRECOGNIZED[2];
    assert (UNRECOGNIZED + command)[2] == UNRECOGNIZED[2];
  }

  /** `_process_cli_command_simulation` as written. */
  function CliSimulationAsWritten(q: string): Simulation
  {
    match Command(q)
    case None => SimulationFailure(NO_COMMAND)
    case Some(g) => ReplyAsWritten(Strip(g))
  }

  /** `_process_cli_command_simulation` with the intended reply. */
  function CliSimulation(q: string): (r: Simulation)
    ensures r == SimulationFailure(NO_COMMAND) <==> Command(q).None?
    ensures r.Simulated? <==> Command(q).Some? && Contains(Lower(Strip(Command(q).value)), "code -s")
    ensures Command(q).Some? ==> r == Reply(Strip(Command(q).value))
  {
    match Command(q)
    case None => SimulationFailure(NO_COMMAND)
    case Some(g) =>
      ReplyIsNotNoCommand(Strip(g));
      Reply(Strip(g))
  }

  /** As written, every extracted command other than `code -s` ends in the
      generic error envelope and never in the `Unrecognized command`
      message. */
  lemma AsWrittenHidesUnrecognized(command: string)
    requires !Contains(Lower(command), "code -s")
    ensures ReplyAsWritten(command) == SimulationFailure(KEY_ERROR)
    ensures Reply(command) == SimulationFailure(UNRECOGNIZED + command)
    ensures ReplyAsWritten(command) != Reply(command)
  {
    assert KEY_ERROR[0] != UNRECOGNIZED[0];
    assert (UNRECOGNIZED + command)[0] == UNRECOGNIZED[0];
  }

  /** Both agree on everything else. */
  lemma AsWrittenAgreesOtherwise(q: string)
    requires Command(q).None? || Contains(Lower(Strip(Command(q).value)), "code -s")
    ensures CliSimulationAsWritten(q) == CliSimulation(q)
  {
  }

  /** A match at the very start is the one `re.search` reports. */
  lemma CommandAtStart(q: string)
    requires CommandAt(q, 0).Some?
    ensures Command(q) == CommandAt(q, 0)
  {
  }

  /** A concrete question: `Type ls and` names the command `ls`. */
  lemma TypeLsAnd()
    ensures Command("Type ls and") == Some("ls")
  {
    LsCommandAt();
    CommandAtStart("Type ls and");
  }

  lemma LsCommandAt()
    ensures CommandAt("Type ls and", 0) == Some("ls")
  {
    var q := "Type ls and";
    assert WordAt(q, "type", 0) by { assert Lower(q[0..4]) == "type"; }
    assert LeadingSpaces(q[4..]) == 1;
    LsWidth();
  }

  lemma LsWidth()
    ensures TryWidths("Type ls and", 0, 1) == Some("ls")
  {
    var q := "Type ls and";
    LsGroup();
    assert q[5..7] == "ls";
  }

  /** In `Type ls and` the lazy group after `Type ` is the two letters. */
  lemma LsGroup()
    ensures LazyGroup("Type ls and", Ands("Type ls and"), 5, 1) == Some(2)
  {
    var q := "Type ls and";
    var ands := Ands(q);
    assert !AndAt(q, 6) by { assert LeadingSpaces(q[6..]) == 0; }
    assert AndAt(q, 7) by {
      assert LeadingSpaces(q[7..]) == 1;
      assert q[8..11] == "and";
    }
  }
}
