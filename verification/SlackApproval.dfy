/** The Slack approval poller (`scripts/slack-approval-node.js`): it finds the recent daily-pack
    messages, collects `post 1|2|3` commands from their threads (and channel-level commands
    routed to the nearest preceding pack), skips commands a bot reply already acknowledges, and
    answers each remaining command once, with a reply that carries an acknowledgement marker.
    Slack, the posting service and the clock are parameters. */
module SlackApproval {
  import opened Common

  // ------------------------------------------------------------------
  // Slack timestamps
  // ------------------------------------------------------------------

  /** The end of the run of decimal digits starting at `i`. */
  function DigitRun(s: string, i: nat): (j: nat)
    requires i <= |s|
    decreases |s| - i
    ensures i <= j <= |s| && (j == |s| || !IsDigit(s[j]))
    ensures forall k :: i <= k < j ==> IsDigit(s[k])
  {
    if i == |s| || !IsDigit(s[i]) then i else DigitRun(s, i + 1)
  }

  /** The value of a string of decimal digits. */
  function DigitsValue(d: string): nat
    requires forall k :: 0 <= k < |d| ==> IsDigit(d[k])
  {
    if d == [] then 0
    else
      assert IsDigit(d[|d| - 1]);
      DigitsValue(d[..|d| - 1]) * 10 + (d[|d| - 1] as int - '0' as int)
  }

  function Pow10(n: nat): (r: nat)
    ensures r >= 1
  {
    if n == 0 then 1 else 10 * Pow10(n - 1)
  }

  /** `toNumberTs`: `parseFloat(String(ts || '0'))`, with 0 for anything that is not a number.
      The leading digits, then an optional point and more digits, are read. */
  function ParseTs(ts: string): real
  {
    var s := if ts == "" then "0" else ts;
    var n := DigitRun(s, 0);
    var whole := DigitsValue(s[..n]) as real;
    if n < |s| && s[n] == '.' then
      var m := DigitRun(s, n + 1);
      whole + DigitsValue(s[n + 1..m]) as real / Pow10(m - n - 1) as real
    else whole
  }

  /** A Slack timestamp as Slack writes it: seconds, a point and a fraction. */
  lemma {:induction false} ParseTsDecimal(whole: string, frac: string)
    requires whole != [] && forall k :: 0 <= k < |whole| ==> IsDigit(whole[k])
    requires forall k :: 0 <= k < |frac| ==> IsDigit(frac[k])
    ensures ParseTs(whole + "." + frac) == DigitsValue(whole) as real + DigitsValue(frac) as real / Pow10(|frac|) as real
    ensures ParseTs(whole) == DigitsValue(whole) as real
  {
    var s := whole + "." + frac;
    DigitRunAll(s, 0, |whole|);
    assert s[..|whole|] == whole;
    DigitRunAll(s, |whole| + 1, |s|);
    assert s[|whole| + 1..|s|] == frac;
    DigitRunAll(whole, 0, |whole|);
    assert whole[..|whole|] == whole;
  }

  /** A run of digits from `i` to `j`, not followed by a digit, is what `DigitRun` finds. */
  lemma {:induction false} DigitRunAll(s: string, i: nat, j: nat)
    requires i <= j <= |s|
    requires forall k :: i <= k < j ==> IsDigit(s[k])
    requires j == |s| || !IsDigit(s[j])
    ensures DigitRun(s, i) == j
    decreases j - i
  {
    if i < j {
      DigitRunAll(s, i + 1, j);
    }
  }

  /** `isFresh`: with no positive age limit every command is fresh; otherwise its age in
      milliseconds must lie between 0 and the limit. */
  predicate IsFresh(nowMs: int, maxAgeMinutes: int, ts: string)
  {
    maxAgeMinutes <= 0 ||
    (var ageMs := nowMs as real - ParseTs(ts) * 1000.0;
     0.0 <= ageMs <= (maxAgeMinutes * 60 * 1000) as real)
  }

  /** A command fresh under a positive age limit stays fresh under any larger one, and without
      a positive limit every command is fresh. */
  lemma FreshMonotone(nowMs: int, a: int, b: int, ts: string)
    requires 0 < a <= b
    ensures IsFresh(nowMs, a, ts) ==> IsFresh(nowMs, b, ts)
    ensures IsFresh(nowMs, 0, ts)
  {
  }

  /** Under a positive age limit, a command stamped after `now` is not fresh. */
  lemma FutureNotFresh(nowMs: int, maxAgeMinutes: int, ts: string)
    requires maxAgeMinutes > 0 && ParseTs(ts) * 1000.0 > nowMs as real
    ensures !IsFresh(nowMs, maxAgeMinutes, ts)
  {
  }

  // ------------------------------------------------------------------
  // Commands
  // ------------------------------------------------------------------

  /** The option a command names: 1, 2 or 3. */
  type OptionNo = k: int | 1 <= k <= 3 witness 1

  /** The end of the run of white space starting at `i`. */
  function SpaceRun(t: string, i: nat): (j: nat)
    requires i <= |t|
    decreases |t| - i
    ensures i <= j <= |t| && (j == |t| || !IsSpace(t[j]))
    ensures forall k :: i <= k < j ==> IsSpace(t[k])
  {
    if i == |t| || !IsSpace(t[i]) then i else SpaceRun(t, i + 1)
  }

  /** `\s*([123])\b` from index `i`: white space, one of the digits 1 to 3, then no word
      character. */
  function OptionAt(t: string, i: nat): Option<OptionNo>
    requires i <= |t|
  {
    var j := SpaceRun(t, i);
    if j < |t| && '1' <= t[j] <= '3' && (j + 1 == |t| || !IsWordChar(t[j + 1])) then
      Some((t[j] as int - '0' as int) as OptionNo)
    else None
  }

  /** The command word `w` starts `t` and the option follows it. */
  function AfterWord(t: string, w: string): Option<OptionNo>
  {
    if StartsWith(t, w) then OptionAt(t, |w|) else None
  }

  /** `^(post|publish|发|发布)\s*([123])\b` on a normalised text, the command words tried in
      this order. */
  function MatchCommand(t: string): Option<OptionNo>
  {
    if AfterWord(t, "post").Some? then AfterWord(t, "post")
    else if AfterWord(t, "publish").Some? then AfterWord(t, "publish")
    else if AfterWord(t, "发").Some? then AfterWord(t, "发")
    else AfterWord(t, "发布")
  }

  /** `normalizeText(text).toLowerCase()`. */
  function Normalize(text: string): string { ToLower(Trim(text)) }

  /** `parseCommand`. */
  function ParseCommand(text: string): Option<OptionNo> { MatchCommand(Normalize(text)) }

  predicate IsCommandWord(w: string) { w == "post" || w == "publish" || w == "发" || w == "发布" }

  function Spaces(n: nat): string { seq(n, _ => ' ') }

  function DigitChar(k: OptionNo): char { (k + '0' as int) as char }

  /** Normalising a text that starts with a non-space character keeps everything up to any later
      non-space character at `p`, lower-cased, and the character after it. */
  lemma NormalizePrefix(text: string, p: nat)
    requires p < |text| && !IsSpace(text[0]) && !IsSpace(text[p])
    ensures var t := Normalize(text);
            p < |t| && (forall i :: 0 <= i <= p ==> t[i] == ToLowerChar(text[i])) &&
            (p + 1 < |t| ==> t[p + 1] == ToLowerChar(text[p + 1]))
  {
    var s := TrimStart(text);
    assert s == text;
    var tr := TrimEnd(text);
    assert |tr| > p;
  }

  /** A text without white space at either end and without upper-case letters is already
      normalised. */
  lemma NormalizeKeeps(t: string)
    requires t != [] && !IsSpace(t[0]) && !IsSpace(t[|t| - 1])
    requires forall k :: 0 <= k < |t| ==> !('A' <= t[k] <= 'Z')
    ensures Normalize(t) == t
  {
    assert TrimStart(t) == t;
    assert TrimEnd(t) == t;
    ToLowerKeeps(t);
  }

  /** A command word followed by white space, an option digit and a character that is not a
      word character (or nothing) is matched as that option. */
  lemma MatchCommandWord(t: string, w: string, n: nat, k: OptionNo)
    requires IsCommandWord(w)
    requires |w| + n < |t| && (forall i :: 0 <= i < |w| ==> t[i] == w[i])
    requires forall i :: |w| <= i < |w| + n ==> t[i] == ' '
    requires t[|w| + n] == DigitChar(k)
    requires |w| + n + 1 == |t| || !IsWordChar(t[|w| + n + 1])
    ensures MatchCommand(t) == Some(k)
  {
    assert t[..|w|] == w;
    SpaceRunAll(t, |w|, |w| + n);
    assert OptionAt(t, |w|) == Some(k);
    if w == "publish" {
      assert !StartsWith(t, "post") by {
        assert t[1] == w[1];
      }
    } else if w == "发布" {
      assert t[1] == w[1];
      assert !StartsWith(t, "post") && !StartsWith(t, "publish");
      assert SpaceRun(t, 1) == 1;
      assert AfterWord(t, "发").None?;
    } else if w == "发" {
      assert !StartsWith(t, "post") && !StartsWith(t, "publish");
    }
  }

  /** The command words have no upper-case letters. */
  lemma CommandWordLower(w: string)
    requires IsCommandWord(w)
    ensures forall i :: 0 <= i < |w| ==> ToLowerChar(w[i]) == w[i]
  {
  }

  /** Where the parts of a command lie in its text. */
  lemma CommandLayout(w: string, n: nat, k: OptionNo, rest: string)
    requires IsCommandWord(w)
    ensures var text := w + Spaces(n) + [DigitChar(k)] + rest;
            |text| == |w| + n + 1 + |rest| && !IsSpace(text[0]) &&
            (forall i :: 0 <= i < |w| ==> text[i] == w[i]) &&
            (forall i :: |w| <= i < |w| + n ==> text[i] == ' ') &&
            text[|w| + n] == DigitChar(k) &&
            (forall i :: 0 <= i < |rest| ==> text[|w| + n + 1 + i] == rest[i])
  {
    var text := w + Spaces(n) + [DigitChar(k)] + rest;
    assert text[0] == w[0];
  }

  /** Normalising a command keeps its word, its white space and its digit, and what follows
      the digit still does not start with a word character. */
  lemma NormalizedCommand(w: string, n: nat, k: OptionNo, rest: string)
    requires IsCommandWord(w)
    requires rest == [] || !IsWordChar(rest[0])
    ensures var t := Normalize(w + Spaces(n) + [DigitChar(k)] + rest); var p := |w| + n;
            p < |t| && (forall i :: 0 <= i < |w| ==> t[i] == w[i]) &&
            (forall i :: |w| <= i < p ==> t[i] == ' ') && t[p] == DigitChar(k) &&
            (p + 1 == |t| || !IsWordChar(t[p + 1]))
  {
    var text := w + Spaces(n) + [DigitChar(k)] + rest;
    var p := |w| + n;
    CommandLayout(w, n, k, rest);
    NormalizePrefix(text, p);
    CommandWordLower(w);
  }

  /** A command word, any amount of white space, an option digit and anything that does not
      start with a word character is read back as that option. */
  lemma CommandRoundTrip(w: string, n: nat, k: OptionNo, rest: string)
    requires IsCommandWord(w)
    requires rest == [] || !IsWordChar(rest[0])
    ensures ParseCommand(w + Spaces(n) + [DigitChar(k)] + rest) == Some(k)
  {
    NormalizedCommand(w, n, k, rest);
    MatchCommandWord(Normalize(w + Spaces(n) + [DigitChar(k)] + rest), w, n, k);
  }

  /** A run of white space from `i` to `j`, not followed by white space, is what `SpaceRun`
      finds. */
  lemma {:induction false} SpaceRunAll(t: string, i: nat, j: nat)
    requires i <= j <= |t|
    requires forall k :: i <= k < j ==> IsSpace(t[k])
    requires j == |t| || !IsSpace(t[j])
    ensures SpaceRun(t, i) == j
    decreases j - i
  {
    if i < j {
      SpaceRunAll(t, i + 1, j);
    }
  }

  /** An option other than 1 to 3 is not a command. */
  lemma OptionFourNotCommand()
    ensures ParseCommand("post 4") == None
  {
    var t := "post 4";
    assert MatchCommand(t) == None by {
      SpaceRunAll(t, 4, 5);
      assert !StartsWith(t, "publish");
      assert t[0] != "发"[0];
    }
    NormalizeKeeps(t);
  }

  /** An option digit followed by another digit is not a command. */
  lemma OptionTwelveNotCommand()
    ensures ParseCommand("post 12") == None
  {
    var t := "post 12";
    assert MatchCommand(t) == None by {
      SpaceRunAll(t, 4, 5);
      assert IsWordChar(t[6]);
      assert !StartsWith(t, "publish");
      assert t[0] != "发"[0];
    }
    NormalizeKeeps(t);
  }

  // ------------------------------------------------------------------
  // Acknowledgement markers
  // ------------------------------------------------------------------

  const AckPrefix := "x_daily_pack_ack"

  /** The marker a reply to the command with timestamp `ts` ends with. */
  function AckMarker(ts: string): string { "\n\n_(" + AckPrefix + " " + "cmd_ts=" + ts + ")_" }

  predicate IsTsChar(c: char) { IsDigit(c) || c == '.' }

  /** The end of the run of digits and points starting at `i`. */
  function TsRun(t: string, i: nat): (j: nat)
    requires i <= |t|
    decreases |t| - i
    ensures i <= j <= |t| && (j == |t| || !IsTsChar(t[j]))
    ensures forall k :: i <= k < j ==> IsTsChar(t[k])
  {
    if i == |t| || !IsTsChar(t[i]) then i else TsRun(t, i + 1)
  }

  /** `x_daily_pack_ack\s+cmd_ts=([0-9.]+)`, ignoring case, matched at index `i`: the captured
      timestamp. */
  function AckAt(t: string, i: nat): (r: Option<string>)
    requires i <= |t|
    ensures r.Some? ==> r.value != [] && forall k :: 0 <= k < |r.value| ==> IsTsChar(r.value[k])
  {
    if i + |AckPrefix| <= |t| && ToLower(t[i..i + |AckPrefix|]) == AckPrefix then
      var j := SpaceRun(t, i + |AckPrefix|);
      if j > i + |AckPrefix| && j + 7 <= |t| && ToLower(t[j..j + 7]) == "cmd_ts=" then
        var e := TsRun(t, j + 7);
        if e > j + 7 then Some(t[j + 7..e]) else None
      else None
    else None
  }

  /** The leftmost match at or after `i`. */
  function AckFrom(t: string, i: nat): Option<string>
    requires i <= |t|
    decreases |t| - i
  {
    if i == |t| then None
    else if AckAt(t, i).Some? then AckAt(t, i)
    else AckFrom(t, i + 1)
  }

  /** `extractAckTs`. */
  function ExtractAckTs(text: string): Option<string> { AckFrom(text, 0) }

  /** Positions without a match are skipped. */
  lemma {:induction false} AckFromSkip(t: string, i: nat, j: nat)
    requires i <= j <= |t|
    requires forall k :: i <= k < j ==> AckAt(t, k).None?
    ensures AckFrom(t, i) == AckFrom(t, j)
    decreases j - i
  {
    if i < j {
      AckFromSkip(t, i + 1, j);
    }
  }

  /** A timestamp made of digits and points, as Slack writes them. */
  predicate IsTsText(ts: string)
  {
    ts != [] && forall k :: 0 <= k < |ts| ==> IsTsChar(ts[k])
  }

  /** Lower-casing keeps a text without upper-case letters. */
  lemma ToLowerKeeps(s: string)
    requires forall k :: 0 <= k < |s| ==> !('A' <= s[k] <= 'Z')
    ensures ToLower(s) == s
  {
  }

  /** The prefix, one space, `cmd_ts=` (in any case) and a timestamp ended by a character
      that cannot continue it are matched as that timestamp. */
  lemma AckAtIs(t: string, i: nat, ts: string)
    requires IsTsText(ts) && i + 24 + |ts| <= |t|
    requires forall k :: 0 <= k < 16 ==> ToLowerChar(t[i + k]) == AckPrefix[k]
    requires t[i + 16] == ' '
    requires forall k :: 0 <= k < 7 ==> ToLowerChar(t[i + 17 + k]) == "cmd_ts="[k]
    requires forall k :: 0 <= k < |ts| ==> t[i + 24 + k] == ts[k]
    requires i + 24 + |ts| == |t| || !IsTsChar(t[i + 24 + |ts|])
    ensures AckAt(t, i) == Some(ts)
  {
    assert ToLower(t[i..i + 16]) == AckPrefix;
    assert ToLower(t[i + 17..i + 24]) == "cmd_ts=";
    assert !IsSpace(t[i + 17]) by {
      assert ToLowerChar(t[i + 17]) == 'c';
    }
    SpaceRunAll(t, i + 16, i + 17);
    var e := i + 24 + |ts|;
    assert t[i + 24..e] == ts;
    assert forall k :: i + 24 <= k < e ==> IsTsChar(t[k]) by {
      forall k | i + 24 <= k < e ensures IsTsChar(t[k]) {
        assert t[i + 24 + (k - i - 24)] == ts[k - i - 24];
      }
    }
    TsRunAll(t, i + 24, e);
  }

  /** The marker prefix and `cmd_ts=` have no upper-case letters. */
  lemma AckWordsLower()
    ensures forall k :: 0 <= k < |AckPrefix| ==> ToLowerChar(AckPrefix[k]) == AckPrefix[k]
    ensures forall k :: 0 <= k < |"cmd_ts="| ==> ToLowerChar("cmd_ts="[k]) == "cmd_ts="[k]
  {
  }

  /** Where the parts of the marker lie in a reply that ends with it. */
  lemma MarkerLayout(body: string, ts: string)
    ensures var t := body + AckMarker(ts); var i := |body| + 4;
            |t| == i + 26 + |ts| && t[i + 16] == ' ' && t[i + 24 + |ts|] == ')' &&
            (forall k :: 0 <= k < 16 ==> t[i + k] == AckPrefix[k]) &&
            (forall k :: 0 <= k < 7 ==> t[i + 17 + k] == "cmd_ts="[k]) &&
            (forall k :: 0 <= k < |ts| ==> t[i + 24 + k] == ts[k])
  {
    var t := body + AckMarker(ts);
    var i := |body| + 4;
    var a := body + "\n\n_(";
    assert |a| == i;
    assert t == a + AckPrefix + " " + "cmd_ts=" + ts + ")_";
  }

  /** The marker matches where its prefix starts and gives back the timestamp. */
  lemma AckAtMarker(body: string, ts: string)
    requires IsTsText(ts)
    ensures var t := body + AckMarker(ts); AckAt(t, |body| + 4) == Some(ts)
  {
    var t := body + AckMarker(ts);
    var i := |body| + 4;
    MarkerLayout(body, ts);
    AckWordsLower();
    AckAtIs(t, i, ts);
  }

  lemma {:induction false} TsRunAll(t: string, i: nat, j: nat)
    requires i <= j <= |t|
    requires forall k :: i <= k < j ==> IsTsChar(t[k])
    requires j == |t| || !IsTsChar(t[j])
    ensures TsRun(t, i) == j
    decreases j - i
  {
    if i < j {
      TsRunAll(t, i + 1, j);
    }
  }

  /** The marker prefix has no newline and no parenthesis. */
  lemma PrefixLacks(c: char)
    requires c == '\n' || c == '('
    ensures forall j :: 0 <= j < |AckPrefix| ==> AckPrefix[j] != c
  {
  }

  /** The marker opens with a newline and has `(` at index 3. */
  lemma MarkerOpens(ts: string)
    ensures |AckMarker(ts)| > 3 && AckMarker(ts)[0] == '\n' && AckMarker(ts)[3] == '('
  {
    var m := AckMarker(ts);
    assert m == "\n\n_(" + (AckPrefix + " " + "cmd_ts=" + ts + ")_");
  }

  /** No match starts before the marker when the text before it does not mention the prefix. */
  lemma NoAckBeforeMarker(body: string, ts: string, k: nat)
    requires !Contains(ToLower(body), AckPrefix)
    requires k < |body| + 4
    ensures var t := body + AckMarker(ts); k <= |t| && AckAt(t, k).None?
  {
    var t := body + AckMarker(ts);
    if k + 16 <= |t| {
      var w := ToLower(t[k..k + 16]);
      if k + 16 <= |body| {
        assert w == ToLower(body)[k..k + 16];
        ContainsIff(ToLower(body), AckPrefix);
        assert !OccursAt(ToLower(body), AckPrefix, k);
      } else {
        var p := if k <= |body| then 0 else 3;
        MarkerOpens(ts);
        var c := AckMarker(ts)[p];
        assert t[|body| + p] == c;
        assert w[|body| + p - k] == c;
        PrefixLacks(c);
      }
      assert w != AckPrefix;
    }
  }

  /** A reply whose text before the marker does not mention the marker prefix is read back as
      the acknowledgement of its command. */
  lemma AckRoundTrip(body: string, ts: string)
    requires IsTsText(ts)
    requires !Contains(ToLower(body), AckPrefix)
    ensures ExtractAckTs(body + AckMarker(ts)) == Some(ts)
  {
    var t := body + AckMarker(ts);
    forall k | 0 <= k < |body| + 4
      ensures AckAt(t, k).None?
    {
      NoAckBeforeMarker(body, ts, k);
    }
    AckFromSkip(t, 0, |body| + 4);
    AckAtMarker(body, ts);
  }

  /** The first marker wins: a body quoting a full marker for another command (say, in the
      posting service's answer) is read back as that command's acknowledgement. */
  lemma QuotedMarkerMisread()
    ensures ExtractAckTs(AckPrefix + " cmd_ts=1" + AckMarker("2")) == Some("1")
  {
    var t := AckPrefix + " cmd_ts=1" + AckMarker("2");
    AckWordsLower();
    AckAtIs(t, 0, "1");
  }

  // ------------------------------------------------------------------
  // Drafts in the pack message
  // ------------------------------------------------------------------

  /** The line that follows a draft in its section. */
  const CountMarker := "\n\n_字符数"

  /** `extractFromSection`: the text after the first line, up to the character-count line,
      trimmed. */
  function SectionDraft(sectionText: string): string
  {
    if sectionText == "" then ""
    else
      var nl := IndexOf(sectionText, "\n");
      var rest := if nl >= 0 then sectionText[nl + 1..] else sectionText;
      var mi := IndexOf(rest, CountMarker);
      var tweet := if mi >= 0 then rest[..mi] else rest;
      Trim(tweet)
  }

  /** An option's section as the pack message writes it: a header line, the draft, the
      character-count line and the rest. */
  function OptionSection(header: string, tweet: string, tail: string): string
  {
    header + "\n" + tweet + CountMarker + tail
  }

  /** The first occurrence is at `i` when there is one there and none before. */
  lemma IndexOfIs(s: string, p: string, i: nat)
    requires OccursAt(s, p, i)
    requires forall j :: 0 <= j < i ==> !OccursAt(s, p, j)
    ensures IndexOf(s, p) == i
  {
  }

  /** The count marker cannot begin inside a draft and end after it. */
  lemma MarkerNotStraddling(tweet: string, tail: string, j: nat)
    requires j < |tweet| < j + |CountMarker|
    ensures !OccursAt(tweet + CountMarker + tail, CountMarker, j)
  {
    var rest := tweet + CountMarker + tail;
    var d := |tweet| - j;
    var m := if d < 2 then 2 else d;
    assert rest[j + m] == CountMarker[m - d];
    assert CountMarker[m] != CountMarker[m - d];
  }

  /** In a draft followed by its count line, the first count marker is the one after it. */
  lemma MarkerAfterDraft(tweet: string, tail: string)
    requires !Contains(tweet, CountMarker)
    ensures IndexOf(tweet + CountMarker + tail, CountMarker) == |tweet|
  {
    var rest := tweet + CountMarker + tail;
    assert rest[|tweet|..|tweet| + |CountMarker|] == CountMarker;
    ContainsIff(tweet, CountMarker);
    forall j | 0 <= j < |tweet|
      ensures !OccursAt(rest, CountMarker, j)
    {
      if j + |CountMarker| <= |tweet| {
        assert rest[j..j + |CountMarker|] == tweet[j..j + |CountMarker|];
        assert !OccursAt(tweet, CountMarker, j);
      } else {
        MarkerNotStraddling(tweet, tail, j);
      }
    }
    IndexOfIs(rest, CountMarker, |tweet|);
  }

  /** After a one-line header, the first newline is the one ending it. */
  lemma NewlineAfterHeader(header: string, rest: string)
    requires forall k :: 0 <= k < |header| ==> header[k] != '\n'
    ensures IndexOf(header + "\n" + rest, "\n") == |header|
  {
    var s := header + "\n" + rest;
    assert s[|header|..|header| + 1] == "\n";
    forall j | 0 <= j < |header|
      ensures !OccursAt(s, "\n", j)
    {
      assert s[j..j + 1] == [header[j]];
    }
    IndexOfIs(s, "\n", |header|);
  }

  /** The draft is read back from its section, trimmed, when the header is one line and the
      draft does not contain the count marker. */
  lemma SectionRoundTrip(header: string, tweet: string, tail: string)
    requires forall k :: 0 <= k < |header| ==> header[k] != '\n'
    requires !Contains(tweet, CountMarker)
    ensures SectionDraft(OptionSection(header, tweet, tail)) == Trim(tweet)
  {
    var rest := tweet + CountMarker + tail;
    var s := header + "\n" + rest;
    assert OptionSection(header, tweet, tail) == s;
    NewlineAfterHeader(header, rest);
    assert s[|header| + 1..] == rest;
    MarkerAfterDraft(tweet, tail);
    assert rest[..|tweet|] == tweet;
  }

  /** The fields of a Block Kit block the poller reads; a missing string is "". */
  datatype Block = Block(kind: string, text: string, plainText: string)

  /** The drafts for options 1 to 3; "" when an option has none. */
  datatype Drafts = Drafts(one: string, two: string, three: string)

  function DraftOf(d: Drafts, k: OptionNo): string
  {
    if k == 1 then d.one else if k == 2 then d.two else d.three
  }

  function OptionTag(k: OptionNo): string
  {
    if k == 1 then "*Option 1:" else if k == 2 then "*Option 2:" else "*Option 3:"
  }

  /** A section block with text that mentions option `k`. */
  predicate Mentions(b: Block, k: OptionNo)
  {
    b.kind == "section" && b.text != "" && Contains(b.text, OptionTag(k))
  }

  /** One block of the `forEach`: a section that mentions an option sets that option's draft. */
  function ApplyBlock(d: Drafts, b: Block): Drafts
  {
    Drafts(if Mentions(b, 1) then SectionDraft(b.text) else d.one,
           if Mentions(b, 2) then SectionDraft(b.text) else d.two,
           if Mentions(b, 3) then SectionDraft(b.text) else d.three)
  }

  /** A block sets exactly the drafts of the options it mentions. */
  lemma ApplyBlockDraft(d: Drafts, b: Block, k: OptionNo)
    ensures DraftOf(ApplyBlock(d, b), k) == if Mentions(b, k) then SectionDraft(b.text) else DraftOf(d, k)
  {
    if k == 1 {
      assert DraftOf(ApplyBlock(d, b), k) == ApplyBlock(d, b).one;
    } else if k == 2 {
      assert DraftOf(ApplyBlock(d, b), k) == ApplyBlock(d, b).two;
    } else {
      assert DraftOf(ApplyBlock(d, b), k) == ApplyBlock(d, b).three;
    }
  }

  /** `extractDraftsFromBlocks`: the blocks applied in order, later sections overriding earlier
      ones. */
  function ExtractDrafts(blocks: seq<Block>): Drafts
  {
    if blocks == [] then Drafts("", "", "")
    else ApplyBlock(ExtractDrafts(blocks[..|blocks| - 1]), blocks[|blocks| - 1])
  }

  /** The index of the last block that mentions option `k`, or -1. */
  function LastMention(blocks: seq<Block>, k: OptionNo): int
  {
    LastIndex(blocks, b => Mentions(b, k))
  }

  /** An option's draft comes from the last section that mentions it, and is "" when none
      does. */
  lemma {:induction false} DraftsFromLastMention(blocks: seq<Block>, k: OptionNo)
    ensures var i := LastMention(blocks, k);
            DraftOf(ExtractDrafts(blocks), k) == if i < 0 then "" else SectionDraft(blocks[i].text)
  {
    if blocks != [] {
      var init := blocks[..|blocks| - 1];
      var b := blocks[|blocks| - 1];
      DraftsFromLastMention(init, k);
      ApplyBlockDraft(ExtractDrafts(init), b, k);
      if !Mentions(b, k) {
        var i := LastMention(init, k);
        assert LastMention(blocks, k) == i;
        if i >= 0 {
          assert init[i] == blocks[i];
        }
      }
    }
  }

  // ------------------------------------------------------------------
  // Pack roots and the routing of channel-level commands
  // ------------------------------------------------------------------

  /** The fields of a Slack message the poller reads; a missing string is "". */
  datatype Message = Message(ts: string, threadTs: string, botId: string, subtype: string,
                             user: string, text: string, blocks: seq<Block>)

  /** `conversations.history` is asked for 50 messages. */
  const HistoryLimit := 50

  /** The title a pack message carries in its header block. */
  const PackTitle := "Today's X Daily Pack"

  /** The text of the first header block (its `text`, else its `plain_text`), or "" without
      one. */
  function HeaderText(blocks: seq<Block>): string
  {
    if blocks == [] then ""
    else if blocks[0].kind == "header" then OrText(blocks[0].text, blocks[0].plainText)
    else HeaderText(blocks[1..])
  }

  /** `isDailyPackMessage`. */
  predicate IsDailyPack(m: Message)
  {
    m.blocks != [] && Contains(HeaderText(m.blocks), PackTitle)
  }

  /** A pack message that starts a thread rather than replying in one. */
  predicate IsPackRoot(m: Message)
  {
    IsDailyPack(m) && (m.threadTs == "" || m.threadTs == m.ts)
  }

  /** `Math.max(1, Math.min(maxThreads, 50))`. */
  function RootLimit(maxThreads: int): int { Max(1, Min(maxThreads, 50)) }

  /** `packRoots`: the pack roots in history order, at most `RootLimit` of them. */
  function PackRoots(history: seq<Message>, maxThreads: int): seq<Message>
  {
    SliceTo(Filter(history, IsPackRoot), RootLimit(maxThreads))
  }

  /** The limit lies between 1 and 50; the roots kept are the first `min(limit, #qualifying)`
      pack roots of the history, in history order. */
  lemma PackRootsShape(history: seq<Message>, maxThreads: int)
    ensures 1 <= RootLimit(maxThreads) <= 50
    ensures |PackRoots(history, maxThreads)| == Min(|Filter(history, IsPackRoot)|, RootLimit(maxThreads))
    ensures PackRoots(history, maxThreads) == Filter(history, IsPackRoot)[..|PackRoots(history, maxThreads)|]
    ensures forall m :: m in PackRoots(history, maxThreads) ==> m in history && IsPackRoot(m)
  {
    var q := Filter(history, IsPackRoot);
    var roots := PackRoots(history, maxThreads);
    forall m | m in roots ensures m in history && IsPackRoot(m) {
      assert m in q;
    }
  }

  /** `Math.max(20, Math.min(maxReplies, 200))`, the number of replies asked for per thread. */
  function RepliesLimit(maxReplies: int): (r: int)
    ensures 20 <= r <= 200
    ensures 20 <= maxReplies <= 200 ==> r == maxReplies
  {
    Max(20, Min(maxReplies, 200))
  }

  /** The key of the ascending sort by timestamp. */
  function NegTs(m: Message): real { -ParseTs(m.ts) }

  /** `packRootsAsc`: the roots sorted by ascending timestamp, stably. */
  function AscRoots(roots: seq<Message>): (r: seq<Message>)
    ensures |r| == |roots| && multiset(r) == multiset(roots)
    ensures forall i, j :: 0 <= i < j < |r| ==> ParseTs(r[i].ts) <= ParseTs(r[j].ts)
  {
    var r := SortDesc(roots, NegTs);
    assert forall i, j :: 0 <= i < j < |r| ==> NegTs(r[i]) >= NegTs(r[j]);
    r
  }

  /** The index of the last root, in ascending order, not later than `cmdTs`, or -1. */
  function RouteIndex(asc: seq<Message>, cmdTs: real): int
  {
    LastIndex(asc, (r: Message) => ParseTs(r.ts) <= cmdTs)
  }

  /** `targetRoot?.ts || null`: the timestamp of the root a channel-level command goes to, or
      "" when it goes nowhere. */
  function RouteTarget(asc: seq<Message>, cmdTs: real): string
  {
    var i := RouteIndex(asc, cmdTs);
    if i < 0 then "" else asc[i].ts
  }

  /** On ascending roots, a command goes to the root with the greatest timestamp not after its
      own, and to none exactly when every root is later. */
  lemma RouteGreatest(asc: seq<Message>, cmdTs: real)
    requires forall i, j :: 0 <= i < j < |asc| ==> ParseTs(asc[i].ts) <= ParseTs(asc[j].ts)
    ensures -1 <= RouteIndex(asc, cmdTs) < |asc|
    ensures RouteIndex(asc, cmdTs) >= 0 ==> ParseTs(asc[RouteIndex(asc, cmdTs)].ts) <= cmdTs
    ensures RouteIndex(asc, cmdTs) >= 0 ==>
              forall j :: 0 <= j < |asc| && ParseTs(asc[j].ts) <= cmdTs ==>
                            ParseTs(asc[j].ts) <= ParseTs(asc[RouteIndex(asc, cmdTs)].ts)
    ensures RouteIndex(asc, cmdTs) < 0 <==> forall j :: 0 <= j < |asc| ==> ParseTs(asc[j].ts) > cmdTs
  {
    var i := RouteIndex(asc, cmdTs);
    var p := (r: Message) => ParseTs(r.ts) <= cmdTs;
    assert i == LastIndex(asc, p);
    if i >= 0 {
      forall j | 0 <= j < |asc| && ParseTs(asc[j].ts) <= cmdTs
        ensures ParseTs(asc[j].ts) <= ParseTs(asc[i].ts)
      {
        assert p(asc[j]);
      }
    } else {
      assert forall j :: 0 <= j < |asc| ==> !p(asc[j]);
    }
  }

  /** The loop that looks for the target root: every root not later than the command replaces
      the one found so far. */
  method FindTarget(asc: seq<Message>, cmdTs: real) returns (target: string)
    ensures target == RouteTarget(asc, cmdTs)
  {
    var found := -1;
    for i := 0 to |asc|
      invariant found == RouteIndex(asc[..i], cmdTs)
    {
      assert asc[..i + 1][..i] == asc[..i];
      if cmdTs >= ParseTs(asc[i].ts) {
        found := i;
      }
    }
    assert asc[..|asc|] == asc;
    target := if found < 0 then "" else asc[found].ts;
  }

  /** A channel-level command with the root it was routed to. */
  datatype Routed = Routed(ts: string, cmd: OptionNo, target: string)

  /** A top-level message from a person, not from a bot and not a special subtype. */
  predicate IsChannelCandidate(m: Message)
  {
    m.threadTs == "" && m.botId == "" && m.subtype == "" && m.user != ""
  }

  /** One history message as a routed channel-level command, if it is one. */
  function RouteOne(m: Message, asc: seq<Message>, nowMs: int, maxAge: int): seq<Routed>
  {
    if IsChannelCandidate(m) && IsFresh(nowMs, maxAge, m.ts) && ParseCommand(m.text).Some? &&
       RouteTarget(asc, ParseTs(m.ts)) != ""
    then [Routed(m.ts, ParseCommand(m.text).value, RouteTarget(asc, ParseTs(m.ts)))]
    else []
  }

  /** `channelCommands`, in history order. */
  function ChannelCommands(history: seq<Message>, asc: seq<Message>, nowMs: int, maxAge: int): seq<Routed>
  {
    if history == [] then []
    else ChannelCommands(history[..|history| - 1], asc, nowMs, maxAge) +
         RouteOne(history[|history| - 1], asc, nowMs, maxAge)
  }

  /** Every channel-level command is a fresh top-level command from a person, routed to the
      root its timestamp selects, and every such message with a target is kept. */
  lemma {:induction false} ChannelCommandsShape(history: seq<Message>, asc: seq<Message>, nowMs: int, maxAge: int)
    ensures forall r :: r in ChannelCommands(history, asc, nowMs, maxAge) ==>
              r.target != "" &&
              (exists m :: m in history && m.ts == r.ts && IsChannelCandidate(m) &&
                           IsFresh(nowMs, maxAge, m.ts) && ParseCommand(m.text) == Some(r.cmd) &&
                           r.target == RouteTarget(asc, ParseTs(m.ts)))
    ensures forall m :: m in history && RouteOne(m, asc, nowMs, maxAge) != [] ==>
              RouteOne(m, asc, nowMs, maxAge)[0] in ChannelCommands(history, asc, nowMs, maxAge)
  {
    if history != [] {
      var init := history[..|history| - 1];
      ChannelCommandsShape(init, asc, nowMs, maxAge);
      assert history == init + [history[|history| - 1]];
    }
  }

  /** The loop form of `channelCommands`, with the inner loop over the ascending roots. */
  method CollectChannelCommands(history: seq<Message>, asc: seq<Message>, nowMs: int, maxAge: int)
    returns (chan: seq<Routed>)
    ensures chan == ChannelCommands(history, asc, nowMs, maxAge)
  {
    chan := [];
    for i := 0 to |history|
      invariant chan == ChannelCommands(history[..i], asc, nowMs, maxAge)
    {
      assert history[..i + 1][..i] == history[..i];
      var m := history[i];
      if IsChannelCandidate(m) && IsFresh(nowMs, maxAge, m.ts) {
        var cmd := ParseCommand(m.text);
        if cmd.Some? {
          var target := FindTarget(asc, ParseTs(m.ts));
          if target != "" {
            chan := chan + [Routed(m.ts, cmd.value, target)];
          }
        }
      }
    }
    assert history[..|history|] == history;
  }

  // ------------------------------------------------------------------
  // Commands of one thread: collection, acknowledgements and the seen set
  // ------------------------------------------------------------------

  /** A command waiting to be processed: its timestamp and the option it names, if any. */
  datatype Entry = Entry(ts: string, cmd: Option<OptionNo>)

  /** A reply in the thread that may be a command: it has a timestamp other than the root's,
      comes from a person and is fresh. */
  predicate IsThreadCandidate(m: Message, threadTs: string, nowMs: int, maxAge: int)
  {
    m.ts != "" && m.ts != threadTs && m.subtype == "" && m.botId == "" && m.user != "" &&
    IsFresh(nowMs, maxAge, m.ts)
  }

  /** The thread part of `cmdsToProcess`, in reply order. */
  function ThreadEntries(msgs: seq<Message>, threadTs: string, nowMs: int, maxAge: int): seq<Entry>
  {
    if msgs == [] then []
    else
      var m := msgs[|msgs| - 1];
      ThreadEntries(msgs[..|msgs| - 1], threadTs, nowMs, maxAge) +
      (if IsThreadCandidate(m, threadTs, nowMs, maxAge) then [Entry(m.ts, ParseCommand(m.text))] else [])
  }

  /** The channel part of `cmdsToProcess`: the commands routed to this thread, in order. */
  function ChannelEntries(chan: seq<Routed>, threadTs: string): seq<Entry>
  {
    if chan == [] then []
    else
      var r := chan[|chan| - 1];
      ChannelEntries(chan[..|chan| - 1], threadTs) +
      (if r.target == threadTs then [Entry(r.ts, Some(r.cmd))] else [])
  }

  /** The timestamps acknowledged by bot replies in the thread. */
  function Acked(msgs: seq<Message>): set<string>
  {
    if msgs == [] then {}
    else
      var m := msgs[|msgs| - 1];
      Acked(msgs[..|msgs| - 1]) +
      (if m.botId != "" && ExtractAckTs(m.text).Some? then {ExtractAckTs(m.text).value} else {})
  }

  /** A bot reply's acknowledgement is among the acknowledged timestamps, and every
      acknowledged timestamp comes from a bot reply. */
  lemma {:induction false} AckedIff(msgs: seq<Message>, ts: string)
    ensures ts in Acked(msgs) <==>
              exists m :: m in msgs && m.botId != "" && ExtractAckTs(m.text) == Some(ts)
  {
    if msgs != [] {
      var init := msgs[..|msgs| - 1];
      AckedIff(init, ts);
      assert msgs == init + [msgs[|msgs| - 1]];
    }
  }

  /** A command to answer: its timestamp and option. */
  datatype Command = Command(ts: string, option: OptionNo)

  function TsOf(cs: seq<Command>): set<string> { set c | c in cs :: c.ts }

  /** The commands the seen-set loop answers: in order, each entry with a timestamp and a
      command that is neither acknowledged nor already answered in this run. */
  function Pick(es: seq<Entry>, acked: set<string>): seq<Command>
  {
    if es == [] then []
    else
      var p := Pick(es[..|es| - 1], acked);
      var e := es[|es| - 1];
      if e.ts == "" || e.cmd.None? || e.ts in acked || e.ts in TsOf(p) then p
      else p + [Command(e.ts, e.cmd.value)]
  }

  /** At most once: the answered commands have distinct timestamps, none acknowledged, each
      taken from an entry; and every entry with a command that is not acknowledged is
      answered. */
  lemma {:induction false} PickShape(es: seq<Entry>, acked: set<string>)
    ensures var p := Pick(es, acked);
            (forall i, j :: 0 <= i < j < |p| ==> p[i].ts != p[j].ts) &&
            (forall c :: c in p ==> c.ts != "" && c.ts !in acked && Entry(c.ts, Some(c.option)) in es) &&
            (forall e :: e in es && e.ts != "" && e.cmd.Some? && e.ts !in acked ==> e.ts in TsOf(p))
  {
    if es != [] {
      var init := es[..|es| - 1];
      PickShape(init, acked);
      assert es == init + [es[|es| - 1]];
    }
  }

  /** The first entry for a timestamp decides the option answered for it. */
  lemma {:induction false} PickFirst(es: seq<Entry>, acked: set<string>, i: nat)
    requires i < |es| && es[i].ts != "" && es[i].cmd.Some? && es[i].ts !in acked
    requires forall j :: 0 <= j < i ==> es[j].ts != es[i].ts || es[j].cmd.None?
    ensures Command(es[i].ts, es[i].cmd.value) in Pick(es, acked)
  {
    var init := es[..|es| - 1];
    if i < |es| - 1 {
      PickFirst(init, acked, i);
    } else {
      PickShape(init, acked);
    }
  }

  /** The loop that gathers the acknowledged timestamps from bot replies. */
  method CollectAcked(msgs: seq<Message>) returns (acked: set<string>)
    ensures acked == Acked(msgs)
  {
    acked := {};
    for i := 0 to |msgs|
      invariant acked == Acked(msgs[..i])
    {
      assert msgs[..i + 1][..i] == msgs[..i];
      var m := msgs[i];
      if m.botId == "" {
        continue;
      }
      var ackTs := ExtractAckTs(m.text);
      if ackTs.Some? {
        acked := acked + {ackTs.value};
      }
    }
    assert msgs[..|msgs|] == msgs;
  }

  /** The loops that build `cmdsToProcess`: thread replies first, then the routed channel-level
      commands. */
  method CollectEntries(msgs: seq<Message>, chan: seq<Routed>, threadTs: string, nowMs: int, maxAge: int)
    returns (es: seq<Entry>)
    ensures es == ThreadEntries(msgs, threadTs, nowMs, maxAge) + ChannelEntries(chan, threadTs)
  {
    es := [];
    for i := 0 to |msgs|
      invariant es == ThreadEntries(msgs[..i], threadTs, nowMs, maxAge)
    {
      assert msgs[..i + 1][..i] == msgs[..i];
      var m := msgs[i];
      if m.ts == "" || m.ts == threadTs || m.subtype != "" || m.botId != "" || m.user == "" {
        continue;
      }
      if !IsFresh(nowMs, maxAge, m.ts) {
        continue;
      }
      es := es + [Entry(m.ts, ParseCommand(m.text))];
    }
    assert msgs[..|msgs|] == msgs;
    ghost var fromThread := es;
    for i := 0 to |chan|
      invariant es == fromThread + ChannelEntries(chan[..i], threadTs)
    {
      assert chan[..i + 1][..i] == chan[..i];
      if chan[i].target != threadTs {
        continue;
      }
      es := es + [Entry(chan[i].ts, Some(chan[i].cmd))];
    }
    assert chan[..|chan|] == chan;
  }

  // ------------------------------------------------------------------
  // Answering a command
  // ------------------------------------------------------------------

  /** What the posting service did with a tweet: the JSON text of its answer, or the message
      of the error it raised. */
  datatype PostOutcome = PostOk(response: string) | PostError(message: string)

  datatype Status = MissingDraft | DryRun | Posted | Failed

  /** The `json` of one result item; `error` is "" except for a failure. */
  datatype Result = Result(status: Status, commandTs: string, threadTs: string, option: OptionNo, error: string)

  /** A message posted in a thread. */
  datatype Reply = Reply(threadTs: string, text: string)

  /** A result and the reply posted with it. */
  datatype Handled = Handled(result: Result, reply: Reply)

  /** `COMMAND_HELP`. */
  const CommandHelp := "可用指令：`post 1` / `post 2` / `post 3`（推荐在线程里回复；若发在频道顶层，会自动关联到最近一条 pack）"

  /** At most this much of the service's answer is quoted back. */
  const ResponseQuote := 1500

  /** The status of the answer to a command whose option has draft `draft`. */
  function StatusOf(draft: string, xWrite: bool, post: string -> PostOutcome): Status
  {
    if draft == "" then MissingDraft
    else if !xWrite then DryRun
    else if post(draft).PostOk? then Posted
    else Failed
  }

  /** The fixed parts of the replies. */
  const MissingHead := "找不到 Option "
  const MissingTail := " 的草稿内容。"
  const DryRunHead := "🧪 Dry-run：将发布 Option "
  const DryRunTail := "\n\n如需真正发布，请在环境变量设置 X_WRITE_ENABLED=true 并重启 n8n。"
  const PostedHead := "✅ 已发布 Option "
  const PostedLabel := "\n\n返回："
  const FailedHead := "❌ 执行失败："
  const BlankLine := "\n\n"

  /** The reply text before its acknowledgement marker. */
  function ReplyBody(k: OptionNo, draft: string, xWrite: bool, post: string -> PostOutcome): string
  {
    var o := [DigitChar(k)];
    match StatusOf(draft, xWrite, post)
    case MissingDraft => MissingHead + o + MissingTail + CommandHelp
    case DryRun => DryRunHead + o + BlankLine + draft + DryRunTail
    case Posted => PostedHead + o + BlankLine + draft + PostedLabel + SliceTo(post(draft).response, ResponseQuote)
    case Failed => FailedHead + post(draft).message + "\n" + CommandHelp
  }

  /** The answer to one command in the thread `threadTs`. */
  function Handle(c: Command, threadTs: string, drafts: Drafts, xWrite: bool, post: string -> PostOutcome): Handled
  {
    var draft := DraftOf(drafts, c.option);
    var status := StatusOf(draft, xWrite, post);
    Handled(Result(status, c.ts, threadTs, c.option, if status == Failed then post(draft).message else ""),
            Reply(threadTs, ReplyBody(c.option, draft, xWrite, post) + AckMarker(c.ts)))
  }

  /** Every reply goes to the command's thread and ends with the command's marker; a draft is
      handed to the posting service only when writing is enabled, and nothing is posted for an
      option without a draft. */
  lemma HandleShape(c: Command, threadTs: string, drafts: Drafts, xWrite: bool, post: string -> PostOutcome)
    ensures var h := Handle(c, threadTs, drafts, xWrite, post);
            var draft := DraftOf(drafts, c.option);
            h.reply.threadTs == threadTs && h.result.threadTs == threadTs &&
            h.result.commandTs == c.ts && h.result.option == c.option &&
            EndsWith(h.reply.text, AckMarker(c.ts)) &&
            (h.result.status == MissingDraft <==> draft == "") &&
            (h.result.status == DryRun <==> draft != "" && !xWrite) &&
            (h.result.status == Posted <==> draft != "" && xWrite && post(draft).PostOk?) &&
            (h.result.status == Failed <==> draft != "" && xWrite && post(draft).PostError?)
  {
    var h := Handle(c, threadTs, drafts, xWrite, post);
    var body := ReplyBody(c.option, DraftOf(drafts, c.option), xWrite, post);
    assert h.reply.text[|h.reply.text| - |AckMarker(c.ts)|..] == AckMarker(c.ts) by {
      assert h.reply.text == body + AckMarker(c.ts);
    }
  }

  /** On the next run, the reply is read back as the acknowledgement of its command, provided
      the timestamp is a Slack timestamp and nothing quoted in the reply mentions the marker
      prefix. */
  lemma ReplyAcknowledges(c: Command, threadTs: string, drafts: Drafts, xWrite: bool, post: string -> PostOutcome)
    requires IsTsText(c.ts)
    requires !Contains(ToLower(ReplyBody(c.option, DraftOf(drafts, c.option), xWrite, post)), AckPrefix)
    ensures ExtractAckTs(Handle(c, threadTs, drafts, xWrite, post).reply.text) == Some(c.ts)
  {
    AckRoundTrip(ReplyBody(c.option, DraftOf(drafts, c.option), xWrite, post), c.ts);
  }

  /** The answers to the picked commands, in order. */
  function HandleAll(cs: seq<Command>, threadTs: string, drafts: Drafts, xWrite: bool, post: string -> PostOutcome): seq<Handled>
  {
    Map(cs, (c: Command) => Handle(c, threadTs, drafts, xWrite, post))
  }

  /** Answering one more command appends its answer. */
  lemma HandleAllSnoc(cs: seq<Command>, c: Command, threadTs: string, drafts: Drafts, xWrite: bool,
                      post: string -> PostOutcome)
    ensures HandleAll(cs + [c], threadTs, drafts, xWrite, post) ==
            HandleAll(cs, threadTs, drafts, xWrite, post) + [Handle(c, threadTs, drafts, xWrite, post)]
  {
    MapSnoc(cs, c, (c: Command) => Handle(c, threadTs, drafts, xWrite, post));
  }

  /** The seen-set loop: skips entries without a timestamp or command, acknowledged ones and
      ones already answered, and answers the rest. */
  method ProcessEntries(es: seq<Entry>, acked: set<string>, threadTs: string, drafts: Drafts, xWrite: bool,
                        post: string -> PostOutcome)
    returns (handled: seq<Handled>)
    ensures handled == HandleAll(Pick(es, acked), threadTs, drafts, xWrite, post)
  {
    handled := [];
    var seen: set<string> := {};
    for i := 0 to |es|
      invariant seen == TsOf(Pick(es[..i], acked))
      invariant handled == HandleAll(Pick(es[..i], acked), threadTs, drafts, xWrite, post)
    {
      assert es[..i + 1][..i] == es[..i];
      var e := es[i];
      if e.ts == "" || e.cmd.None? {
        continue;
      }
      if e.ts in acked {
        continue;
      }
      if e.ts in seen {
        continue;
      }
      ghost var before := Pick(es[..i], acked);
      assert Pick(es[..i + 1], acked) == before + [Command(e.ts, e.cmd.value)];
      assert TsOf(before + [Command(e.ts, e.cmd.value)]) == TsOf(before) + {e.ts};
      HandleAllSnoc(before, Command(e.ts, e.cmd.value), threadTs, drafts, xWrite, post);
      seen := seen + {e.ts};
      handled := handled + [Handle(Command(e.ts, e.cmd.value), threadTs, drafts, xWrite, post)];
    }
    assert es[..|es|] == es;
  }

  // ------------------------------------------------------------------
  // The node
  // ------------------------------------------------------------------

  /** The environment the poller reads; a missing value is "". The three limits are the
      integers already parsed from their variables. */
  datatype Config = Config(slackToken: string, channelId: string, xWriteEnabled: string,
                           rubeAuthToken: string, rubeApiToken: string,
                           maxThreads: int, maxReplies: int, maxAgeMinutes: int)

  /** `X_WRITE_ENABLED`, lower-cased, is exactly "true". */
  predicate XWrite(cfg: Config) { ToLower(cfg.xWriteEnabled) == "true" }

  function RubeToken(cfg: Config): string { OrText(cfg.rubeAuthToken, cfg.rubeApiToken) }

  /** The run of one pack root: nothing for a root without a timestamp or without any draft;
      otherwise the answers to the thread's picked commands. */
  function RootRun(root: Message, chan: seq<Routed>, replies: string -> seq<Message>, cfg: Config,
                   nowMs: int, post: string -> PostOutcome): seq<Handled>
  {
    if root.ts == "" then []
    else
      var drafts := ExtractDrafts(root.blocks);
      if drafts.one == "" && drafts.two == "" && drafts.three == "" then []
      else
        var msgs := SliceTo(replies(root.ts), RepliesLimit(cfg.maxReplies));
        var es := ThreadEntries(msgs, root.ts, nowMs, cfg.maxAgeMinutes) + ChannelEntries(chan, root.ts);
        HandleAll(Pick(es, Acked(msgs)), root.ts, drafts, XWrite(cfg), post)
  }

  /** The run of a root, as a function of the root. */
  function Runner(chan: seq<Routed>, replies: string -> seq<Message>, cfg: Config, nowMs: int,
                  post: string -> PostOutcome): Message -> seq<Handled>
  {
    root => RootRun(root, chan, replies, cfg, nowMs, post)
  }

  /** The runs of the roots, in order. */
  function RunRoots(roots: seq<Message>, chan: seq<Routed>, replies: string -> seq<Message>, cfg: Config,
                    nowMs: int, post: string -> PostOutcome): seq<Handled>
  {
    Flatten(Map(roots, Runner(chan, replies, cfg, nowMs, post)))
  }

  /** What the node does: it stops on a missing setting, or answers the commands. */
  datatype Outcome = ConfigError(message: string) | Processed(handled: seq<Handled>)

  /** The poller. `history` is the channel history Slack returns and `replies` the replies it
      returns for a thread; `post` is the posting service. */
  function Poll(cfg: Config, history: seq<Message>, replies: string -> seq<Message>, nowMs: int,
                post: string -> PostOutcome): Outcome
  {
    if cfg.slackToken == "" then ConfigError("Missing SLACK_BOT_TOKEN")
    else if cfg.channelId == "" then ConfigError("Missing SLACK_CHANNEL_ID")
    else if XWrite(cfg) && RubeToken(cfg) == "" then
      ConfigError("Missing RUBE_AUTH_TOKEN (required when X_WRITE_ENABLED=true)")
    else Processed(Answers(cfg, history, replies, nowMs, post))
  }

  /** The answers of a run that has its settings: none without a pack root in the newest
      messages, otherwise the runs of the pack roots, with the channel-level commands routed to
      them. */
  function Answers(cfg: Config, history: seq<Message>, replies: string -> seq<Message>, nowMs: int,
                   post: string -> PostOutcome): seq<Handled>
  {
    var h := SliceTo(history, HistoryLimit);
    var roots := PackRoots(h, cfg.maxThreads);
    if roots == [] then []
    else
      var chan := ChannelCommands(h, AscRoots(roots), nowMs, cfg.maxAgeMinutes);
      RunRoots(roots, chan, replies, cfg, nowMs, post)
  }

  /** The `forEach` over the blocks, one block at a time. */
  method ExtractDraftsLoop(blocks: seq<Block>) returns (drafts: Drafts)
    ensures drafts == ExtractDrafts(blocks)
  {
    drafts := Drafts("", "", "");
    for i := 0 to |blocks|
      invariant drafts == ExtractDrafts(blocks[..i])
    {
      assert blocks[..i + 1][..i] == blocks[..i];
      drafts := ApplyBlock(drafts, blocks[i]);
    }
    assert blocks[..|blocks|] == blocks;
  }

  /** Every reply goes to its command's thread and ends with the command's marker. */
  predicate Marked(hs: seq<Handled>)
  {
    forall h :: h in hs ==> h.reply.threadTs == h.result.threadTs && EndsWith(h.reply.text, AckMarker(h.result.commandTs))
  }

  /** No command is answered twice in the same thread. */
  predicate OncePerThread(hs: seq<Handled>)
  {
    forall i, j :: 0 <= i < j < |hs| && hs[i].result.threadTs == hs[j].result.threadTs ==>
      hs[i].result.commandTs != hs[j].result.commandTs
  }

  /** The answers to commands with distinct timestamps, none of them in `excluded`, are
      marked, belong to the thread, answer the commands in order and none of them twice. */
  lemma HandleAllShape(cs: seq<Command>, excluded: set<string>, threadTs: string, drafts: Drafts, xWrite: bool,
                       post: string -> PostOutcome)
    requires forall i, j :: 0 <= i < j < |cs| ==> cs[i].ts != cs[j].ts
    requires forall c :: c in cs ==> c.ts !in excluded
    ensures var hs := HandleAll(cs, threadTs, drafts, xWrite, post);
            ThreadOk(hs, threadTs) &&
            (forall i :: 0 <= i < |hs| ==> hs[i].result.commandTs == cs[i].ts) &&
            (forall h :: h in hs ==> h.result.commandTs !in excluded)
  {
    var hs := HandleAll(cs, threadTs, drafts, xWrite, post);
    forall i | 0 <= i < |hs|
      ensures hs[i].reply.threadTs == threadTs && hs[i].result.threadTs == threadTs
      ensures hs[i].result.commandTs == cs[i].ts && cs[i] in cs
      ensures EndsWith(hs[i].reply.text, AckMarker(hs[i].result.commandTs))
    {
      HandleShape(cs[i], threadTs, drafts, xWrite, post);
    }
  }

  /** The answers of one thread: marked, all in thread `t`, none answering a command twice. */
  predicate ThreadOk(hs: seq<Handled>, t: string)
  {
    Marked(hs) && OncePerThread(hs) && forall h :: h in hs ==> h.result.threadTs == t
  }

  /** Within one thread: every answer is marked and belongs to the thread, no command is
      answered twice and none the thread holds an acknowledgement for. */
  lemma RootRunShape(root: Message, chan: seq<Routed>, replies: string -> seq<Message>, cfg: Config,
                     nowMs: int, post: string -> PostOutcome)
    ensures var hs := RootRun(root, chan, replies, cfg, nowMs, post);
            var msgs := SliceTo(replies(root.ts), RepliesLimit(cfg.maxReplies));
            ThreadOk(hs, root.ts) && forall h :: h in hs ==> h.result.commandTs !in Acked(msgs)
  {
    var msgs := SliceTo(replies(root.ts), RepliesLimit(cfg.maxReplies));
    var drafts := ExtractDrafts(root.blocks);
    if root.ts != "" && !(drafts.one == "" && drafts.two == "" && drafts.three == "") {
      var es := ThreadEntries(msgs, root.ts, nowMs, cfg.maxAgeMinutes) + ChannelEntries(chan, root.ts);
      PickShape(es, Acked(msgs));
      HandleAllShape(Pick(es, Acked(msgs)), Acked(msgs), root.ts, drafts, XWrite(cfg), post);
    }
  }

  /** A command the thread already holds an acknowledgement for is not answered again: in
      particular one answered by an earlier run, whose reply is still in the thread. */
  lemma RepliedCommandNotRepeated(root: Message, chan: seq<Routed>, replies: string -> seq<Message>, cfg: Config,
                                  nowMs: int, post: string -> PostOutcome, m: Message, ts: string)
    requires m in SliceTo(replies(root.ts), RepliesLimit(cfg.maxReplies))
    requires m.botId != "" && ExtractAckTs(m.text) == Some(ts)
    ensures forall h :: h in RootRun(root, chan, replies, cfg, nowMs, post) ==> h.result.commandTs != ts
  {
    AckedIff(SliceTo(replies(root.ts), RepliesLimit(cfg.maxReplies)), ts);
    RootRunShape(root, chan, replies, cfg, nowMs, post);
  }

  /** Answers for one more thread, not seen before, keep the answers marked and once per thread. */
  lemma AppendThread(a: seq<Handled>, b: seq<Handled>, t: string)
    requires Marked(a) && OncePerThread(a) && ThreadOk(b, t)
    requires forall h :: h in a ==> h.result.threadTs != t
    ensures Marked(a + b) && OncePerThread(a + b)
  {
    var hs := a + b;
    assert forall i :: 0 <= i < |a| ==> hs[i] == a[i] && hs[i] in a;
    assert forall j :: |a| <= j < |hs| ==> hs[j] == b[j - |a|] && hs[j] in b;
    forall i, j | 0 <= i < j < |hs| && hs[i].result.threadTs == hs[j].result.threadTs
      ensures hs[i].result.commandTs != hs[j].result.commandTs
    {
      if i >= |a| {
        assert hs[i] == b[i - |a|] && hs[j] == b[j - |a|];
      } else if j >= |a| {
        assert false;
      }
    }
  }

  function RootTs(roots: seq<Message>): set<string> { set r | r in roots :: r.ts }

  /** The runs of roots with distinct timestamps, each run confined to its root's thread, are
      marked, belong to the roots and answer no command twice in a thread. */
  lemma {:induction false} ThreadsShape(roots: seq<Message>, f: Message -> seq<Handled>)
    requires forall i, j :: 0 <= i < j < |roots| ==> roots[i].ts != roots[j].ts
    requires forall r :: r in roots ==> ThreadOk(f(r), r.ts)
    ensures var hs := Flatten(Map(roots, f));
            Marked(hs) && OncePerThread(hs) && forall h :: h in hs ==> h.result.threadTs in RootTs(roots)
  {
    if roots != [] {
      var init := roots[..|roots| - 1];
      var last := roots[|roots| - 1];
      assert roots == init + [last];
      ThreadsShape(init, f);
      MapSnoc(init, last, f);
      FlattenSnoc(Map(init, f), f(last));
      assert forall k :: 0 <= k < |init| ==> init[k].ts != last.ts;
      assert last.ts !in RootTs(init);
      AppendThread(Flatten(Map(init, f)), f(last), last.ts);
    }
  }

  /** Across roots with distinct timestamps, every answer is marked and belongs to one of the
      roots, and no command is answered twice in a thread. */
  lemma RunRootsShape(roots: seq<Message>, chan: seq<Routed>, replies: string -> seq<Message>,
                      cfg: Config, nowMs: int, post: string -> PostOutcome)
    requires forall i, j :: 0 <= i < j < |roots| ==> roots[i].ts != roots[j].ts
    ensures var hs := RunRoots(roots, chan, replies, cfg, nowMs, post);
            Marked(hs) && OncePerThread(hs) && forall h :: h in hs ==> h.result.threadTs in RootTs(roots)
  {
    var f := Runner(chan, replies, cfg, nowMs, post);
    forall r | r in roots ensures ThreadOk(f(r), r.ts)
    {
      RootRunShape(r, chan, replies, cfg, nowMs, post);
    }
    ThreadsShape(roots, f);
  }

  /** The run of one root. */
  method RunRoot(root: Message, chan: seq<Routed>, replies: string -> seq<Message>, cfg: Config, nowMs: int,
                 post: string -> PostOutcome)
    returns (handled: seq<Handled>)
    ensures handled == RootRun(root, chan, replies, cfg, nowMs, post)
  {
    handled := [];
    if root.ts == "" {
      return;
    }
    var drafts := ExtractDraftsLoop(root.blocks);
    if drafts.one == "" && drafts.two == "" && drafts.three == "" {
      return;
    }
    var msgs := SliceTo(replies(root.ts), RepliesLimit(cfg.maxReplies));
    var acked := CollectAcked(msgs);
    var es := CollectEntries(msgs, chan, root.ts, nowMs, cfg.maxAgeMinutes);
    handled := ProcessEntries(es, acked, root.ts, drafts, XWrite(cfg), post);
  }

  /** Running one more root appends its run. */
  lemma RunRootsSnoc(roots: seq<Message>, root: Message, chan: seq<Routed>, replies: string -> seq<Message>,
                     cfg: Config, nowMs: int, post: string -> PostOutcome)
    ensures RunRoots(roots + [root], chan, replies, cfg, nowMs, post) ==
            RunRoots(roots, chan, replies, cfg, nowMs, post) + RootRun(root, chan, replies, cfg, nowMs, post)
  {
    var f := Runner(chan, replies, cfg, nowMs, post);
    MapSnoc(roots, root, f);
    FlattenSnoc(Map(roots, f), f(root));
  }

  lemma RunRootsPrefixStep(roots: seq<Message>, i: int, chan: seq<Routed>, replies: string -> seq<Message>,
                           cfg: Config, nowMs: int, post: string -> PostOutcome)
    requires 0 <= i < |roots|
    ensures RunRoots(roots[..i + 1], chan, replies, cfg, nowMs, post) ==
            RunRoots(roots[..i], chan, replies, cfg, nowMs, post) + RootRun(roots[i], chan, replies, cfg, nowMs, post)
  {
    FlattenMapPrefix(roots, i, Runner(chan, replies, cfg, nowMs, post));
  }

  /** The loop over the pack roots. */
  method RunAllRoots(roots: seq<Message>, chan: seq<Routed>, replies: string -> seq<Message>, cfg: Config,
                     nowMs: int, post: string -> PostOutcome)
    returns (results: seq<Handled>)
    ensures results == RunRoots(roots, chan, replies, cfg, nowMs, post)
  {
    results := [];
    for i := 0 to |roots|
      invariant results == RunRoots(roots[..i], chan, replies, cfg, nowMs, post)
    {
      var handled := RunRoot(roots[i], chan, replies, cfg, nowMs, post);
      RunRootsPrefixStep(roots, i, chan, replies, cfg, nowMs, post);
      results := results + handled;
    }
    assert roots[..|roots|] == roots;
  }

  /** The node: the configuration checks, the pack roots, the channel-level commands, then one
      thread at a time its drafts, its acknowledgements, its commands and the seen-set loop. */
  method SlackApprovalNode(cfg: Config, history: seq<Message>, replies: string -> seq<Message>, nowMs: int,
                           post: string -> PostOutcome)
    returns (outcome: Outcome)
    ensures outcome == Poll(cfg, history, replies, nowMs, post)
    ensures outcome.ConfigError? <==>
            cfg.slackToken == "" || cfg.channelId == "" || (XWrite(cfg) && RubeToken(cfg) == "")
  {
    if cfg.slackToken == "" {
      return ConfigError("Missing SLACK_BOT_TOKEN");
    }
    if cfg.channelId == "" {
      return ConfigError("Missing SLACK_CHANNEL_ID");
    }
    var xWrite := XWrite(cfg);
    if xWrite && RubeToken(cfg) == "" {
      return ConfigError("Missing RUBE_AUTH_TOKEN (required when X_WRITE_ENABLED=true)");
    }
    var h := SliceTo(history, HistoryLimit);
    var roots := PackRoots(h, cfg.maxThreads);
    if roots == [] {
      return Processed([]);
    }
    var asc := AscRoots(roots);
    var chan := CollectChannelCommands(h, asc, nowMs, cfg.maxAgeMinutes);
    var results := RunAllRoots(roots, chan, replies, cfg, nowMs, post);
    outcome := Processed(results);
  }

  /** With no pack root among the newest messages nothing is answered; otherwise, Slack
      timestamps being unique, every answer is marked, belongs to a pack root from the history
      and no command is answered twice in a thread. */
  lemma AnswersShape(cfg: Config, history: seq<Message>, replies: string -> seq<Message>, nowMs: int,
                     post: string -> PostOutcome)
    requires forall i, j :: 0 <= i < j < |history| ==> history[i].ts != history[j].ts
    ensures var hs := Answers(cfg, history, replies, nowMs, post);
            (PackRoots(SliceTo(history, HistoryLimit), cfg.maxThreads) == [] ==> hs == []) &&
            Marked(hs) && OncePerThread(hs) &&
            forall x :: x in hs ==> exists m :: m in history && IsPackRoot(m) && m.ts == x.result.threadTs
  {
    var h := SliceTo(history, HistoryLimit);
    var roots := PackRoots(h, cfg.maxThreads);
    if roots != [] {
      assert forall i, j :: 0 <= i < j < |h| ==> h[i].ts != h[j].ts;
      FilterDistinct(h, IsPackRoot, (m: Message) => m.ts);
      var chan := ChannelCommands(h, AscRoots(roots), nowMs, cfg.maxAgeMinutes);
      RunRootsShape(roots, chan, replies, cfg, nowMs, post);
      PackRootsShape(h, cfg.maxThreads);
      var hs := RunRoots(roots, chan, replies, cfg, nowMs, post);
      forall x | x in hs
        ensures exists m :: m in history && IsPackRoot(m) && m.ts == x.result.threadTs
      {
        var m :| m in roots && m.ts == x.result.threadTs;
        assert m in h;
      }
    }
  }
}
