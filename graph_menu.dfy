// The closing menu of the reporting script: a yes/no question, and after a
// "yes" the choice between the two charts. The console is modelled as the
// list of lines the user types, in order; running out of lines is the end of
// input, on which the script stops with an error.

module GraphMenu {
  import opened Common

  /** Python's `str.isspace` for one character: the characters `str.strip()` removes. */
  predicate IsSpace(c: char)
  {
    var n := c as int;
    (9 <= n <= 13) || (28 <= n <= 32) || n == 0x85 || n == 0xA0 || n == 0x1680
    || (0x2000 <= n <= 0x200A) || n == 0x2028 || n == 0x2029 || n == 0x202F
    || n == 0x205F || n == 0x3000
  }

  predicate AllSpace(s: string)
  {
    forall i :: 0 <= i < |s| ==> IsSpace(s[i])
  }

  /** `s.lstrip()`: the suffix of s that starts at its first non-space character. */
  function TrimStart(s: string): (r: string)
    ensures |r| <= |s|
    ensures r == [] || !IsSpace(r[0])
    decreases |s|
  {
    if s != [] && IsSpace(s[0]) then TrimStart(s[1..]) else s
  }

  /** `s.rstrip()`: the prefix of s that ends at its last non-space character. */
  function TrimEnd(s: string): (r: string)
    ensures |r| <= |s|
    ensures r == [] || (r[0] == s[0] && !IsSpace(r[|r| - 1]))
    decreases |s|
  {
    if s != [] && IsSpace(s[|s| - 1]) then TrimEnd(s[..|s| - 1]) else s
  }

  /** `s.strip()`: s without its leading and trailing whitespace. */
  function Strip(s: string): (r: string)
    ensures |r| <= |s|
    ensures r == [] || (!IsSpace(r[0]) && !IsSpace(r[|r| - 1]))
  {
    TrimEnd(TrimStart(s))
  }

  /** lstrip removes a run of whitespace from the front and nothing else. */
  lemma {:induction false} TrimStartRemovesSpace(s: string)
    ensures var r := TrimStart(s); r == s[|s| - |r|..] && AllSpace(s[..|s| - |r|])
    decreases |s|
  {
    if s != [] && IsSpace(s[0]) {
      TrimStartRemovesSpace(s[1..]);
      var r := TrimStart(s);
      assert s[1..][|s| - 1 - |r|..] == s[|s| - |r|..];
      assert forall i :: 1 <= i < |s| - |r| ==> s[i] == s[1..][..|s| - 1 - |r|][i - 1];
    }
  }

  /** rstrip removes a run of whitespace from the back and nothing else. */
  lemma {:induction false} TrimEndRemovesSpace(s: string)
    ensures var r := TrimEnd(s); r == s[..|r|] && AllSpace(s[|r|..])
    decreases |s|
  {
    if s != [] && IsSpace(s[|s| - 1]) {
      var front := s[..|s| - 1];
      TrimEndRemovesSpace(front);
      var r := TrimEnd(s);
      assert front[..|r|] == s[..|r|];
      assert forall i :: |r| <= i < |s| - 1 ==> s[i] == front[|r|..][i - |r|];
    }
  }

  lemma {:induction false} TrimStartPadded(pre: string, rest: string)
    requires AllSpace(pre)
    requires rest == [] || !IsSpace(rest[0])
    ensures TrimStart(pre + rest) == rest
    decreases |pre|
  {
    if pre != [] {
      assert (pre + rest)[1..] == pre[1..] + rest;
      TrimStartPadded(pre[1..], rest);
    }
  }

  lemma {:induction false} TrimEndPadded(rest: string, post: string)
    requires AllSpace(post)
    requires rest == [] || !IsSpace(rest[|rest| - 1])
    ensures TrimEnd(rest + post) == rest
    decreases |post|
  {
    if post != [] {
      var n := |post| - 1;
      assert (rest + post)[..|rest + post| - 1] == rest + post[..n];
      TrimEndPadded(rest, post[..n]);
    } else {
      assert rest + post == rest;
    }
  }

  /** Whitespace around an answer does not matter, and only whitespace is removed:
      a text that neither starts nor ends with whitespace is what strip returns
      for it however it is padded. */
  lemma StripPadded(pre: string, core: string, post: string)
    requires AllSpace(pre) && AllSpace(post)
    requires core == [] || (!IsSpace(core[0]) && !IsSpace(core[|core| - 1]))
    ensures Strip(pre + core + post) == core
  {
    if core == [] {
      assert pre + core + post == pre + post;
      assert AllSpace(pre + post);
      TrimStartPadded(pre + post, []);
      assert pre + post + [] == pre + post;
      TrimEndPadded([], []);
    } else {
      assert pre + core + post == pre + (core + post);
      TrimStartPadded(pre, core + post);
      TrimEndPadded(core, post);
    }
  }

  /** The part strip keeps is the slice of s after the leading whitespace. */
  lemma StripKeepsMiddle(s: string)
    ensures var a, r := |s| - |TrimStart(s)|, Strip(s);
            a + |r| <= |s| && r == s[a..a + |r|]
  {
    var t := TrimStart(s);
    var a, r := |s| - |t|, TrimEnd(t);
    TrimStartRemovesSpace(s);
    TrimEndRemovesSpace(t);
    assert s[a..a + |r|] == t[..|r|];
  }

  /** What strip removes on either side is whitespace. */
  lemma StripDropsSpace(s: string)
    ensures var a, r := |s| - |TrimStart(s)|, Strip(s);
            a + |r| <= |s| && AllSpace(s[..a]) && AllSpace(s[a + |r|..])
  {
    var t := TrimStart(s);
    var a, r := |s| - |t|, TrimEnd(t);
    TrimStartRemovesSpace(s);
    TrimEndRemovesSpace(t);
    assert s[a + |r|..] == t[|r|..];
  }

  /** strip keeps a middle part of s and removes only whitespace around it. */
  lemma StripRemovesSpace(s: string)
    ensures var a, r := |s| - |TrimStart(s)|, Strip(s);
            && a + |r| <= |s| && r == s[a..a + |r|]
            && AllSpace(s[..a]) && AllSpace(s[a + |r|..])
  {
    StripKeepsMiddle(s);
    StripDropsSpace(s);
  }

  /** Stripping twice is stripping once. */
  lemma StripIdempotent(s: string)
    ensures Strip(Strip(s)) == Strip(s)
  {
    var r := Strip(s);
    assert [] + r + [] == r;
    StripPadded([], r, []);
  }

  /** `str.lower` on the letters A to Z; every other character is kept. */
  function LowerChar(c: char): char
  {
    if 'A' <= c <= 'Z' then (c as int + 32) as char else c
  }

  /** `s.lower()`: every character lowered by LowerChar, and the length kept. */
  function Lower(s: string): (r: string)
    ensures |r| == |s|
    ensures forall i :: 0 <= i < |s| ==> r[i] == LowerChar(s[i])
    decreases |s|
  {
    if s == [] then [] else [LowerChar(s[0])] + Lower(s[1..])
  }

  /** What the script makes of a reply to the yes/no question. */
  datatype Reply = Yes | No | Invalid

  /** "yes" is recognised in any mix of cases, and nothing else lowers to it. */
  lemma YesInAnyCase(s: string)
    ensures Lower(s) == "yes"
            <==> |s| == 3 && (s[0] == 'y' || s[0] == 'Y') && (s[1] == 'e' || s[1] == 'E') && (s[2] == 's' || s[2] == 'S')
  {
    var l := Lower(s);
    if l == "yes" {
      assert l[0] == 'y' && l[1] == 'e' && l[2] == 's';
    } else if |s| == 3 {
      assert l[0] != 'y' || l[1] != 'e' || l[2] != 's';
    }
  }

  /** "no" is recognised in any mix of cases, and nothing else lowers to it. */
  lemma NoInAnyCase(s: string)
    ensures Lower(s) == "no" <==> |s| == 2 && (s[0] == 'n' || s[0] == 'N') && (s[1] == 'o' || s[1] == 'O')
  {
    var l := Lower(s);
    if l == "no" {
      assert l[0] == 'n' && l[1] == 'o';
    } else if |s| == 2 {
      assert l[0] != 'n' || l[1] != 'o';
    }
  }

  /** The reply, stripped and lowered, compared with "yes" and with "no": it is
      a yes exactly when, without its outer whitespace, it spells "yes" in any
      mix of cases, and likewise for no. */
  function Classify(reply: string): (c: Reply)
    ensures var t := Strip(reply);
            c == Yes <==> |t| == 3 && (t[0] == 'y' || t[0] == 'Y') && (t[1] == 'e' || t[1] == 'E') && (t[2] == 's' || t[2] == 'S')
    ensures var t := Strip(reply);
            c == No <==> |t| == 2 && (t[0] == 'n' || t[0] == 'N') && (t[1] == 'o' || t[1] == 'O')
  {
    var answer := Lower(Strip(reply));
    YesInAnyCase(Strip(reply));
    NoInAnyCase(Strip(reply));
    if answer == "yes" then Yes else if answer == "no" then No else Invalid
  }

  datatype Chart = Bar | Pie

  /** The chart option: "1" is the bar chart of quantity by category, "2" the
      pie chart of participation by city, anything else produces no chart. */
  function ChartFor(option: string): (c: Option<Chart>)
    ensures c == Some(Bar) <==> option == "1"
    ensures c == Some(Pie) <==> option == "2"
    ensures c == None <==> option != "1" && option != "2"
  {
    if option == "1" then Some(Bar) else if option == "2" then Some(Pie) else None
  }

  /** How a run of the menu ends: the graph folder was created or not, the chart
      saved, and how many typed lines were read; or the input ran out first. */
  datatype MenuResult = Answered(graphFolder: bool, chart: Option<Chart>, consumed: nat) | EndOfInput

  /** `show_graph_menu` over the lines the user types. A "yes" reads the chart
      option and always creates the graph folder, whatever the option; a "no"
      ends the menu; any other answer asks the question again. */
  function ShowGraphMenu(replies: seq<string>): (r: MenuResult)
    ensures r.Answered? ==> 1 <= r.consumed <= |replies|
    ensures r.Answered? && !r.graphFolder ==> r.chart == None
    decreases |replies|
  {
    if replies == [] then EndOfInput
    else
      match Classify(replies[0])
      case Yes =>
        if |replies| < 2 then EndOfInput
        else Answered(true, ChartFor(Strip(replies[1])), 2)
      case No => Answered(false, None, 1)
      case Invalid =>
        match ShowGraphMenu(replies[1..])
        case EndOfInput => EndOfInput
        case Answered(folder, chart, consumed) => Answered(folder, chart, consumed + 1)
  }

  /** The first decisive answer settles the menu: the invalid answers before it
      are each asked again, and the lines after what it reads are never read. */
  lemma {:induction false} MenuDecidedByFirstAnswer(replies: seq<string>, k: nat)
    requires k < |replies| && Classify(replies[k]) != Invalid
    requires forall i :: 0 <= i < k ==> Classify(replies[i]) == Invalid
    ensures ShowGraphMenu(replies)
            == if Classify(replies[k]) == No then Answered(false, None, k + 1)
               else if k + 1 < |replies| then Answered(true, ChartFor(Strip(replies[k + 1])), k + 2)
               else EndOfInput
    decreases k
  {
    if k > 0 {
      assert Classify(replies[0]) == Invalid;
      MenuDecidedByFirstAnswer(replies[1..], k - 1);
    }
  }

  /** Without a decisive answer the menu keeps asking until the input runs out. */
  lemma {:induction false} MenuWithoutAnswer(replies: seq<string>)
    requires forall i :: 0 <= i < |replies| ==> Classify(replies[i]) == Invalid
    ensures ShowGraphMenu(replies) == EndOfInput
    decreases |replies|
  {
    if replies != [] {
      assert Classify(replies[0]) == Invalid;
      MenuWithoutAnswer(replies[1..]);
    }
  }

  /** Lines typed after the menu has decided are not read and change nothing. */
  lemma {:induction false} MenuIgnoresLaterLines(replies: seq<string>, more: seq<string>)
    requires ShowGraphMenu(replies).Answered?
    ensures ShowGraphMenu(replies + more) == ShowGraphMenu(replies)
    decreases |replies|
  {
    var all := replies + more;
    assert all[0] == replies[0];
    if Classify(replies[0]) == Invalid {
      assert all[1..] == replies[1..] + more;
      MenuIgnoresLaterLines(replies[1..], more);
    } else if Classify(replies[0]) == Yes {
      assert all[1] == replies[1];
    }
  }
}
