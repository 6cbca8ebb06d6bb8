/** The viewer's list of channels, and how pages are paired with channels again after a refresh. */
module ChannelList {
  import opened Wire

  type Page = nat

  const NO_PAGE: Page := 0

  datatype ChannelData = ChannelData(page: Page, name: Bytes)

  function NamesOf(cs: seq<ChannelData>): (names: seq<Bytes>)
    ensures |names| == |cs|
  {
    seq(|cs|, i requires 0 <= i < |cs| => cs[i].name)
  }

  /** Entries without a page, as a refresh appends them. */
  function Unpaired(names: seq<Bytes>): (cs: seq<ChannelData>)
    ensures |cs| == |names|
  {
    seq(|names|, i requires 0 <= i < |names| => ChannelData(NO_PAGE, names[i]))
  }

  /** The page that the old list has for a name: that of the last entry that has any. */
  function PageFor(before: seq<ChannelData>, name: Bytes): Page
    decreases |before|
  {
    if before == [] then NO_PAGE
    else
      var last := before[|before|-1];
      if last.page != NO_PAGE && last.name == name then last.page else PageFor(before[..|before|-1], name)
  }

  predicate FirstOf(names: seq<Bytes>, j: nat)
    requires j < |names|
  {
    names[j] !in names[..j]
  }

  /** The list after a full refresh. */
  function Paired(before: seq<ChannelData>, names: seq<Bytes>): (cs: seq<ChannelData>)
    ensures |cs| == |names|
  {
    seq(|names|, j requires 0 <= j < |names| =>
      ChannelData(if FirstOf(names, j) then PageFor(before, names[j]) else NO_PAGE, names[j]))
  }

  function Refreshed(before: seq<ChannelData>, full: bool, names: seq<Bytes>): seq<ChannelData> {
    if full then Paired(before, names)
    else if |before| <= |names| then before + Unpaired(names[|before|..])
    else before
  }

  /** The application's list, `mChannelData`. */
  class ViewerChannels {
    var channels: seq<ChannelData>

    constructor ()
      ensures channels == []
    {
      channels := [];
    }

    /** `subscribed` is what the request to the server returned. */
    method SubscribeChannel(id: UInt32, page: Page, subscribe: bool, subscribed: bool) returns (ok: bool)
      modifies this
      ensures ok == (id < |old(channels)| && subscribed)
      ensures channels ==
                if ok
                then old(channels)[id := ChannelData(if subscribe then page else NO_PAGE, old(channels)[id].name)]
                else old(channels)
    {
      if id >= |channels| {
        return false;
      }
      ok := subscribed;
      if ok {
        channels := channels[id := channels[id].(page := if subscribe then page else NO_PAGE)];
      }
    }

    /** Is the first channel of that name paired with a page? */
    method IsChannelSubscribed(name: Bytes) returns (r: bool)
      ensures r == exists i :: 0 <= i < |channels| && channels[i].name == name && channels[i].page != NO_PAGE
                               && forall k :: 0 <= k < i ==> channels[k].name != name
    {
      var i := 0;
      while i < |channels|
        invariant 0 <= i <= |channels|
        invariant forall k :: 0 <= k < i ==> channels[k].name != name
      {
        if channels[i].name == name {
          return channels[i].page != NO_PAGE;
        }
        i := i + 1;
      }
      return false;
    }

    /** Gives `page` to the first channel of that name, if there is one. */
    method PairBack(name: Bytes, page: Page)
      modifies this
      ensures |channels| == |old(channels)|
      ensures forall j :: 0 <= j < |channels| ==>
                channels[j] == if old(channels)[j].name == name && FirstOf(NamesOf(old(channels)), j)
                               then ChannelData(page, name) else old(channels)[j]
    {
      var names := NamesOf(channels);
      var j := 0;
      while j < |channels|
        invariant 0 <= j <= |channels|
        invariant channels == old(channels)
        invariant name !in names[..j]
      {
        if channels[j].name == name {
          channels := channels[j := channels[j].(page := page)];
          assert FirstOf(names, j);
          forall k | j < k < |channels|
            ensures !(names[k] == name && FirstOf(names, k))
          {
            assert names[..k][j] == name;
          }
          return;
        }
        assert names[..j+1] == names[..j] + [names[j]];
        j := j + 1;
      }
    }

    /** `names[i]` is the server's answer when it is asked for name `i`; it is asked for one name after
        the other as long as it then reports more channels, which `|names|` is the first not to find. */
    method RefreshChannelData(full: bool, names: seq<Bytes>)
      modifies this
      ensures channels == Refreshed(old(channels), full, names)
    {
      var oldData: seq<ChannelData> := [];
      if full {
        oldData := channels;
        channels := [];
      }
      var kept := channels;
      var i := |channels|;
      while i < |names|
        invariant |kept| <= |names| ==> |kept| <= i <= |names| && channels == kept + Unpaired(names[|kept|..i])
        invariant |names| < |kept| ==> channels == kept
      {
        assert names[|kept|..i+1] == names[|kept|..i] + [names[i]];
        channels := channels + [ChannelData(NO_PAGE, names[i])];
        i := i + 1;
      }
      if full {
        assert channels == Paired([], names);
        i := 0;
        while i < |oldData|
          invariant 0 <= i <= |oldData|
          invariant channels == Paired(oldData[..i], names)
        {
          assert oldData[..i+1][..i] == oldData[..i];
          assert NamesOf(channels) == names;
          if oldData[i].page != NO_PAGE {
            PairBack(oldData[i].name, oldData[i].page);
          }
          i := i + 1;
        }
        assert oldData[..|oldData|] == oldData;
      }
    }
  }

  // ---------------------------------------------------------------- what a refresh promises

  predicate Distinct(names: seq<Bytes>) {
    forall i, j :: 0 <= i < j < |names| ==> names[i] != names[j]
  }

  /** The last entry of the name that has a page. */
  function LastPaired(cs: seq<ChannelData>, name: Bytes): (i: Option<nat>)
    ensures i.Some? ==> i.value < |cs| && cs[i.value].name == name && cs[i.value].page != NO_PAGE
    decreases |cs|
  {
    if cs == [] then None
    else if cs[|cs|-1].page != NO_PAGE && cs[|cs|-1].name == name then Some(|cs| - 1)
    else LastPaired(cs[..|cs|-1], name)
  }

  lemma {:induction false} LastPairedIsLast(cs: seq<ChannelData>, name: Bytes)
    ensures var last := LastPaired(cs, name);
            forall k :: 0 <= k < |cs| && (last.Some? ==> last.value < k) && cs[k].name == name ==> cs[k].page == NO_PAGE
    decreases |cs|
  {
    if cs != [] {
      var n := |cs| - 1;
      LastPairedIsLast(cs[..n], name);
      assert forall k :: 0 <= k < n ==> cs[..n][k] == cs[k];
    }
  }

  /** The page found is that of the last entry of the name that has one. */
  lemma {:induction false} PageForFinds(cs: seq<ChannelData>, name: Bytes)
    ensures PageFor(cs, name) == match LastPaired(cs, name) case Some(i) => cs[i].page case None => NO_PAGE
    decreases |cs|
  {
    if cs != [] {
      PageForFinds(cs[..|cs|-1], name);
    }
  }

  /** With names that are pairwise distinct, as the server's directory keeps them, a full refresh
      leaves each surviving channel with its page and each new channel with none. */
  lemma {:induction false} SurvivorsKeepPages(cs: seq<ChannelData>, names: seq<Bytes>)
    requires Distinct(NamesOf(cs)) && Distinct(names)
    ensures var after := Refreshed(cs, true, names);
            && NamesOf(after) == names
            && (forall i, j :: 0 <= i < |cs| && 0 <= j < |names| && cs[i].name == names[j] ==>
                  after[j].page == cs[i].page)
            && (forall j :: 0 <= j < |names| && names[j] !in NamesOf(cs) ==> after[j].page == NO_PAGE)
  {
    hide PageFor, LastPaired;
    var had := NamesOf(cs);
    forall j | 0 <= j < |names|
      ensures FirstOf(names, j)
      ensures forall i :: 0 <= i < |cs| && cs[i].name == names[j] ==> PageFor(cs, names[j]) == cs[i].page
      ensures names[j] !in had ==> PageFor(cs, names[j]) == NO_PAGE
    {
      PageForFinds(cs, names[j]);
      LastPairedIsLast(cs, names[j]);
      if LastPaired(cs, names[j]).Some? {
        var k := LastPaired(cs, names[j]).value;
        assert had[k] == names[j];
        assert forall i :: 0 <= i < |cs| && cs[i].name == names[j] ==> had[i] == had[k];
      }
    }
  }

  /** No two channels share a page. */
  predicate Unshared(cs: seq<ChannelData>) {
    forall i, j :: 0 <= i < j < |cs| && cs[i].page == cs[j].page ==> cs[i].page == NO_PAGE
  }

  /** Whatever the names, a full refresh never makes two channels share a page. */
  lemma {:induction false} RefreshSharesNothing(cs: seq<ChannelData>, names: seq<Bytes>)
    requires Unshared(cs)
    ensures Unshared(Refreshed(cs, true, names))
  {
    hide PageFor, LastPaired;
    var after := Refreshed(cs, true, names);
    forall i, j | 0 <= i < j < |names| && after[i].page != NO_PAGE && after[j].page != NO_PAGE
      ensures after[i].page != after[j].page
    {
      PageForFinds(cs, names[i]);
      PageForFinds(cs, names[j]);
      var k, l := LastPaired(cs, names[i]).value, LastPaired(cs, names[j]).value;
      assert names[..j][i] == names[i];
      assert k != l;
    }
  }

  /** An incremental refresh touches nothing that was there, and shows the server's directory exactly
      when the names that were there are still the first ones: a list at least as long from another
      run of the server goes unnoticed. */
  lemma {:induction false} IncrementalExactly(cs: seq<ChannelData>, names: seq<Bytes>)
    ensures var after := Refreshed(cs, false, names);
            && cs <= after
            && |after| == (if |cs| < |names| then |names| else |cs|)
            && (forall j :: |cs| <= j < |after| ==> after[j] == ChannelData(NO_PAGE, names[j]))
            && (NamesOf(after) == names <==> NamesOf(cs) <= names)
  {
    var after := Refreshed(cs, false, names);
    assert forall j :: 0 <= j < |cs| ==> after[j] == cs[j];
    if NamesOf(after) == names {
      assert NamesOf(cs) == names[..|cs|];
    }
    if NamesOf(cs) <= names {
      assert NamesOf(after) == names;
    }
  }
}
