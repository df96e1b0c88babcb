/**
 * The main report table: quick Basescan links for the address, a per-row
 * link chosen from the row's label, and a cross-check of the displayed
 * native and token transaction counts against raw diagnostic counts read
 * back out of the rendered rows.
 */
module MainReportTable {
  import opened Wrappers
  import opened Text
  import opened Collections

  /** A displayed row; a missing value reads as the empty string (`r.value || ""`). */
  datatype Row = Row(name: string, value: string)

  /** The raw counters the summary endpoint reports in its diagnostic mode. */
  datatype DiagCounts = DiagCounts(normal: nat, erc20: nat, erc721: nat, internals: nat)

  // ------------------------------------------------------------- getNum

  /** `rows.find((x) => x.name.toLowerCase().includes(label))` */
  function FindRow(rows: seq<Row>, labelText: string): Option<Row>
    decreases |rows|
  {
    if |rows| == 0 then None
    else if Contains(Lower(rows[0].name), labelText) then Some(rows[0])
    else FindRow(rows[1..], labelText)
  }

  /** The row found is the first whose lowercased name contains the label. */
  lemma {:induction false} FindRowMeaning(rows: seq<Row>, labelText: string)
    ensures FindRow(rows, labelText).None? <==>
      forall i :: 0 <= i < |rows| ==> !Contains(Lower(rows[i].name), labelText)
    ensures FindRow(rows, labelText).Some? ==>
      exists i :: 0 <= i < |rows| && rows[i] == FindRow(rows, labelText).value
        && Contains(Lower(rows[i].name), labelText)
        && forall j :: 0 <= j < i ==> !Contains(Lower(rows[j].name), labelText)
    decreases |rows|
  {
    if |rows| > 0 && !Contains(Lower(rows[0].name), labelText) {
      FindRowMeaning(rows[1..], labelText);
      assert forall i :: 0 <= i < |rows[1..]| ==> rows[1..][i] == rows[i + 1];
      if FindRow(rows, labelText).Some? {
        var i :| 0 <= i < |rows[1..]| && rows[1..][i] == FindRow(rows, labelText).value
          && Contains(Lower(rows[1..][i].name), labelText)
          && forall j :: 0 <= j < i ==> !Contains(Lower(rows[1..][j].name), labelText);
        assert rows[i + 1] == FindRow(rows, labelText).value;
      }
    }
  }

  /** A character of the class `[\d,]`. */
  predicate IsNumChar(c: char) { IsDigit(c) || c == ',' }

  /** The longest prefix made of digits and commas. */
  function LeadingRun(s: string): (r: string)
    ensures r <= s
    ensures forall i :: 0 <= i < |r| ==> IsNumChar(r[i])
    ensures |r| == |s| || !IsNumChar(s[|r|])
    decreases |s|
  {
    if |s| > 0 && IsNumChar(s[0]) then [s[0]] + LeadingRun(s[1..]) else ""
  }

  /** The first match of `/[\d,]+/g`, if any. */
  function FirstRun(s: string): (r: Option<string>)
    ensures r.Some? ==> |r.value| > 0 && forall i :: 0 <= i < |r.value| ==> IsNumChar(r.value[i])
    decreases |s|
  {
    if |s| == 0 then None
    else if IsNumChar(s[0]) then Some(LeadingRun(s))
    else FirstRun(s[1..])
  }

  lemma {:induction false} FirstRunNone(s: string)
    ensures FirstRun(s).None? <==> forall i :: 0 <= i < |s| ==> !IsNumChar(s[i])
    decreases |s|
  {
    if |s| > 0 && !IsNumChar(s[0]) {
      FirstRunNone(s[1..]);
      assert forall i :: 0 <= i < |s[1..]| ==> s[1..][i] == s[i + 1];
    }
  }

  /** A run found in the tail, after a first character outside the class, starts one later in `s`. */
  lemma ShiftRun(s: string, k: nat)
    requires |s| > 0 && !IsNumChar(s[0]) && k < |s| - 1
    requires IsNumChar(s[1..][k]) && forall j :: 0 <= j < k ==> !IsNumChar(s[1..][j])
    ensures IsNumChar(s[k + 1]) && (forall j :: 0 <= j < k + 1 ==> !IsNumChar(s[j]))
    ensures s[1..][k..] == s[k + 1..]
  {
    forall j | 0 < j < k + 1 ensures !IsNumChar(s[j]) {
      assert s[j] == s[1..][j - 1];
    }
  }

  lemma {:induction false} FirstRunSome(s: string)
    ensures FirstRun(s).Some? ==>
      exists k :: 0 <= k < |s| && IsNumChar(s[k])
        && (forall j :: 0 <= j < k ==> !IsNumChar(s[j]))
        && FirstRun(s).value == LeadingRun(s[k..])
    decreases |s|
  {
    if |s| > 0 && !IsNumChar(s[0]) {
      FirstRunSome(s[1..]);
      if FirstRun(s).Some? {
        var t := s[1..];
        var k :| 0 <= k < |t| && IsNumChar(t[k])
          && (forall j :: 0 <= j < k ==> !IsNumChar(t[j]))
          && FirstRun(s).value == LeadingRun(t[k..]);
        ShiftRun(s, k);
      }
    } else if |s| > 0 {
      assert s[0..] == s;
    }
  }

  /**
   * There is no run exactly when no character is a digit or a comma;
   * otherwise the run is the maximal block of digits and commas that starts
   * at the first such character.
   */
  lemma FirstRunMeaning(s: string)
    ensures FirstRun(s).None? <==> forall i :: 0 <= i < |s| ==> !IsNumChar(s[i])
    ensures FirstRun(s).Some? ==>
      exists k :: 0 <= k < |s| && IsNumChar(s[k])
        && (forall j :: 0 <= j < k ==> !IsNumChar(s[j]))
        && FirstRun(s).value == LeadingRun(s[k..])
  {
    FirstRunNone(s);
    FirstRunSome(s);
  }

  predicate NotComma(c: char) { c != ',' }

  /** `run.replace(/,/g, "")`: only digits remain. */
  function StripCommas(run: string): (r: string)
    requires forall i :: 0 <= i < |run| ==> IsNumChar(run[i])
    ensures forall i :: 0 <= i < |r| ==> IsDigit(r[i])
  {
    var r := Filter(run, NotComma);
    assert forall c :: c in run ==> IsNumChar(c);
    assert forall i :: 0 <= i < |r| ==> r[i] in r;
    r
  }

  /** `getNum(label)`: `null` is `None`; `Number` of a digit string is its value. */
  function GetNum(rows: seq<Row>, labelText: string): Option<nat> {
    match FindRow(rows, labelText)
    case None => None
    case Some(row) =>
      match FirstRun(row.value)
      case None => None
      case Some(run) => Some(DigitsValue(StripCommas(run)))
  }

  /**
   * `getNum` has no value exactly when no row's name contains the label or
   * the first such row's value has no digit or comma.
   */
  lemma GetNumAbsent(rows: seq<Row>, labelText: string)
    ensures GetNum(rows, labelText).None? <==>
      (forall i :: 0 <= i < |rows| ==> !Contains(Lower(rows[i].name), labelText))
      || (FindRow(rows, labelText).Some?
          && forall i :: 0 <= i < |FindRow(rows, labelText).value.value| ==>
               !IsNumChar(FindRow(rows, labelText).value.value[i]))
  {
    FindRowMeaning(rows, labelText);
    if FindRow(rows, labelText).Some? {
      FirstRunMeaning(FindRow(rows, labelText).value.value);
    }
  }

  /** Removing the commas from a run of commas leaves nothing. */
  lemma {:induction false} StripOnlyCommas(run: string)
    requires forall i :: 0 <= i < |run| ==> run[i] == ','
    ensures StripCommas(run) == ""
    decreases |run|
  {
    if |run| > 0 {
      StripOnlyCommas(run[..|run| - 1]);
    }
  }

  /** A first run made of commas only reads as 0 (`Number("") === 0`). */
  lemma GetNumCommasOnly(rows: seq<Row>, labelText: string)
    requires FindRow(rows, labelText).Some?
    requires FirstRun(FindRow(rows, labelText).value.value).Some?
    requires forall i :: 0 <= i < |FirstRun(FindRow(rows, labelText).value.value).value| ==>
      FirstRun(FindRow(rows, labelText).value.value).value[i] == ','
    ensures GetNum(rows, labelText) == Some(0)
  {
    StripOnlyCommas(FirstRun(FindRow(rows, labelText).value.value).value);
  }

  /** A count rendered as its decimal digits is read back exactly. */
  lemma GetNumReadsDigits(name: string, labelText: string, n: nat, rest: seq<Row>)
    requires Contains(Lower(name), labelText)
    ensures GetNum([Row(name, Digits(n))] + rest, labelText) == Some(n)
  {
    var rows := [Row(name, Digits(n))] + rest;
    var d := Digits(n);
    assert FindRow(rows, labelText) == Some(Row(name, d));
    assert forall i :: 0 <= i < |d| ==> IsNumChar(d[i]);
    LeadingRunAll(d);
    assert FirstRun(d) == Some(d);
    FilterAll(d, NotComma);
    DigitsValueOf(n);
  }

  lemma {:induction false} LeadingRunAll(s: string)
    requires forall i :: 0 <= i < |s| ==> IsNumChar(s[i])
    ensures LeadingRun(s) == s
    decreases |s|
  {
    if |s| > 0 {
      LeadingRunAll(s[1..]);
    }
  }

  // ------------------------------------------------------------ links

  /** The four Basescan links for an address. */
  datatype Links = Links(native: string, erc20: string, erc721: string, account: string)

  const TxsUrl := "https://basescan.org/txs?a="
  const TokenTxsUrl := "https://basescan.org/txs?f=2&a="
  const NftTxsUrl := "https://basescan.org/txs?f=3&a="
  const AccountUrl := "https://basescan.org/address/"

  /** `links`: none without an address, else the four URLs of the lowercased address. */
  function LinksFor(address: string): (r: Option<Links>)
    ensures r.None? <==> address == ""
  {
    if address == "" then None
    else
      var addr := Lower(address);
      Some(Links(TxsUrl + addr, TokenTxsUrl + addr, NftTxsUrl + addr, AccountUrl + addr))
  }

  lemma EndsWithAppend(prefix: string, tail: string)
    ensures EndsWith(prefix + tail, tail)
  {
    assert (prefix + tail)[|prefix + tail| - |tail|..] == tail;
  }

  /** Every link points at the lowercased address. */
  lemma LinksEndWithAddress(address: string)
    requires address != ""
    ensures EndsWith(LinksFor(address).value.native, Lower(address))
    ensures EndsWith(LinksFor(address).value.erc20, Lower(address))
    ensures EndsWith(LinksFor(address).value.erc721, Lower(address))
    ensures EndsWith(LinksFor(address).value.account, Lower(address))
  {
    var a := Lower(address);
    EndsWithAppend(TxsUrl, a);
    EndsWithAppend(TokenTxsUrl, a);
    EndsWithAppend(NftTxsUrl, a);
    EndsWithAppend(AccountUrl, a);
  }

  /** The letter case of the address does not change the links. */
  lemma LinksIgnoreCase(address: string)
    ensures LinksFor(Upper(address)) == LinksFor(address)
  {
    assert Lower(Upper(address)) == Lower(address) by {
      forall i | 0 <= i < |address| ensures Lower(Upper(address))[i] == Lower(address)[i] {
        assert LowerChar(UpperChar(address[i])) == LowerChar(address[i]);
      }
    }
    assert Upper(address) == "" <==> address == "";
  }

  // -------------------------------------------------------- per-row link

  /** Which link a row's label selects. */
  datatype Target = NativeTxs | TokenTxs | Account | NoTarget

  /**
   * The label tests in `PerRowLink`, on the lowercased label: "native" wins
   * over "token", which wins over "balance", "volume" or "wallet", which
   * (like "contract") select the account page; any other label has no link.
   */
  function TargetOf(labelText: string): (t: Target)
    ensures t == NativeTxs <==> Contains(Lower(labelText), "native")
    ensures t == TokenTxs <==> !Contains(Lower(labelText), "native") && Contains(Lower(labelText), "token")
    ensures t == Account <==>
      && !Contains(Lower(labelText), "native") && !Contains(Lower(labelText), "token")
      && (|| Contains(Lower(labelText), "balance") || Contains(Lower(labelText), "volume")
          || Contains(Lower(labelText), "wallet") || Contains(Lower(labelText), "contract"))
  {
    var l := Lower(labelText);
    if Contains(l, "native") then NativeTxs
    else if Contains(l, "token") then TokenTxs
    else if Contains(l, "balance") || Contains(l, "volume") || Contains(l, "wallet") then Account
    else if Contains(l, "contract") then Account
    else NoTarget
  }

  /** The rendered link: its address and its hover title. */
  datatype RowLink = RowLink(href: string, title: string)

  /** `PerRowLink`: nothing without links or without a matching label. */
  function PerRowLink(labelText: string, links: Option<Links>, diag: Option<DiagCounts>): (r: Option<RowLink>)
    ensures r.Some? <==> links.Some? && TargetOf(labelText) != NoTarget
  {
    if links.None? then None
    else
      match TargetOf(labelText)
      case NativeTxs =>
        Some(RowLink(links.value.native,
          if diag.Some? then "Raw native txs: " + Digits(diag.value.normal) else "Open in Basescan"))
      case TokenTxs =>
        Some(RowLink(links.value.erc20,
          if diag.Some? then "Raw token transfers (erc20+erc721): " + Digits(diag.value.erc20 + diag.value.erc721)
          else "Open in Basescan"))
      case Account => Some(RowLink(links.value.account, "Open in Basescan"))
      case NoTarget => None
  }

  /**
   * A row link built from an address always points at that address:
   * native rows at its transactions, token rows at its token transfers, and
   * the others at its account page.
   */
  lemma PerRowLinkFacts(labelText: string, address: string, diag: Option<DiagCounts>)
    requires address != ""
    ensures PerRowLink(labelText, LinksFor(address), diag).Some? ==>
      EndsWith(PerRowLink(labelText, LinksFor(address), diag).value.href, Lower(address))
    ensures TargetOf(labelText) == NativeTxs ==>
      PerRowLink(labelText, LinksFor(address), diag).value.href == TxsUrl + Lower(address)
    ensures TargetOf(labelText) == TokenTxs ==>
      PerRowLink(labelText, LinksFor(address), diag).value.href == TokenTxsUrl + Lower(address)
    ensures TargetOf(labelText) == Account ==>
      PerRowLink(labelText, LinksFor(address), diag).value.href == AccountUrl + Lower(address)
  {
    LinksEndWithAddress(address);
  }

  // ------------------------------------------------------------ mismatch

  /** A displayed count that disagrees with the raw one. */
  datatype Issue = NativeIssue(ui: nat, raw: nat) | TokenIssue(ui: nat, raw: nat)

  /** The text the issue is shown with. */
  function Message(issue: Issue): string {
    match issue
    case NativeIssue(ui, raw) => "Native TXs UI=" + Digits(ui) + " vs raw=" + Digits(raw)
    case TokenIssue(ui, raw) => "Token TXs UI=" + Digits(ui) + " vs raw=" + Digits(raw)
  }

  datatype Report = Report(ok: bool, issues: seq<Issue>)

  /**
   * `mismatch`: nothing unless verification is on and raw counts are
   * present; then the native count read from the rows is compared with the
   * raw normal count and the token count with erc20 + erc721, a count that
   * cannot be read raises nothing, and `ok` says there is no issue.
   */
  method Mismatch(verify: bool, diag: Option<DiagCounts>, rows: seq<Row>) returns (m: Option<Report>)
    ensures !verify || diag.None? ==> m.None?
    ensures verify && diag.Some? ==> m.Some?
    ensures m.Some? ==> |m.value.issues| <= 2
    ensures m.Some? ==> (m.value.ok <==> m.value.issues == [])
    ensures m.Some? ==>
      ((exists i :: i in m.value.issues && i.NativeIssue?) <==>
        GetNum(rows, "native").Some? && GetNum(rows, "native").value != diag.value.normal)
    ensures m.Some? ==>
      ((exists i :: i in m.value.issues && i.TokenIssue?) <==>
        GetNum(rows, "token").Some? && GetNum(rows, "token").value != diag.value.erc20 + diag.value.erc721)
    ensures m.Some? ==> forall i :: i in m.value.issues ==>
      (i.NativeIssue? ==> Some(i.ui) == GetNum(rows, "native") && i.raw == diag.value.normal)
      && (i.TokenIssue? ==> Some(i.ui) == GetNum(rows, "token") && i.raw == diag.value.erc20 + diag.value.erc721)
    ensures m.Some? && |m.value.issues| == 2 ==>
      m.value.issues[0].NativeIssue? && m.value.issues[1].TokenIssue?
  {
    if !verify || diag.None? {
      return None;
    }
    var counts := diag.value;
    var uiNative := GetNum(rows, "native");
    var uiToken := GetNum(rows, "token");
    var issues: seq<Issue> := [];
    if uiNative.Some? && uiNative.value != counts.normal {
      issues := issues + [NativeIssue(uiNative.value, counts.normal)];
    }
    assert forall i :: i in issues ==> i.NativeIssue?;
    ghost var natives := issues;
    if uiToken.Some? && uiToken.value != counts.erc20 + counts.erc721 {
      issues := issues + [TokenIssue(uiToken.value, counts.erc20 + counts.erc721)];
      assert issues[|issues| - 1] in issues;
    }
    assert forall i :: i in issues && i.NativeIssue? ==> i in natives;
    assert natives != [] ==> natives[0] in issues;
    return Some(Report(|issues| == 0, issues));
  }
}
