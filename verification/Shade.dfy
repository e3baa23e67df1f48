/** The shade: the banner strip and the history it keeps from the broker's notification feed. */
module Shade {
  import opened Wrappers
  import opened Broker

  const MAX_BANNERS: nat := 8
  const MAX_HISTORY: nat := 6

  datatype Banner = Banner(used: bool, id: int, app: string, card: Card)
  {
    function Front(): Face { Face(id, app, card) }
  }

  const BLANK := Banner(false, 0, "", Card("", "", "", "", ""))

  /** A notification as the shade shows it. */
  datatype Face = Face(id: int, app: string, card: Card)

  function FindBanner(bs: seq<Banner>, id: int): (i: nat)
    ensures i <= |bs|
    ensures forall j :: 0 <= j < i ==> !(bs[j].used && bs[j].id == id)
    ensures i < |bs| ==> bs[i].used && bs[i].id == id
  {
    FirstWhere(bs, (b: Banner) => b.used && b.id == id)
  }

  function FreeBanner(bs: seq<Banner>): (i: nat)
    ensures i <= |bs|
    ensures forall j :: 0 <= j < i ==> bs[j].used
    ensures i < |bs| ==> !bs[i].used
  {
    FirstWhere(bs, (b: Banner) => !b.used)
  }

  /** A show replaces the banner with the same id or takes a free slot; a full strip ignores it. */
  function Shown(bs: seq<Banner>, f: Face): (r: seq<Banner>)
    ensures |r| == |bs|
  {
    var b := Banner(true, f.id, f.app, f.card);
    var i, j := FindBanner(bs, f.id), FreeBanner(bs);
    if i < |bs| then bs[i := b] else if j < |bs| then bs[j := b] else bs
  }

  function Hidden(bs: seq<Banner>, id: int): (r: seq<Banner>)
    ensures |r| == |bs|
  {
    var i := FindBanner(bs, id);
    if i < |bs| then bs[i := bs[i].(used := false)] else bs
  }

  /** What the strip shows. */
  function Faces(bs: seq<Banner>): set<Face>
  {
    set b <- bs | b.used :: b.Front()
  }

  predicate DistinctBanners(bs: seq<Banner>)
  {
    forall i, j :: 0 <= i < j < |bs| && bs[i].used && bs[j].used ==> bs[i].id != bs[j].id
  }

  /** The history after a dismissal: most recent first, at most MAX_HISTORY. */
  function Remembered(h: seq<Banner>, b: Banner): seq<Banner>
  {
    [b] + if |h| < MAX_HISTORY then h else h[..MAX_HISTORY - 1]
  }

  /** The newest dismissal comes first; the oldest falls off behind the sixth. */
  lemma RememberedIs(h: seq<Banner>, b: Banner)
    requires |h| <= 6
    ensures var r := Remembered(h, b);
            && |r| == (if |h| < 6 then |h| + 1 else 6) && r[0] == b && forall i :: 0 < i < |r| ==> r[i] == h[i - 1]
  {
  }

  class Shade {
    const banners: array<Banner>
    const history: array<Banner>
    var nHistory: nat

    ghost predicate Valid()
      reads this, banners
    {
      && banners.Length == MAX_BANNERS
      && history.Length == MAX_HISTORY
      && banners != history
      && nHistory <= MAX_HISTORY
      && DistinctBanners(banners[..])
    }

    ghost function History(): seq<Banner>
      requires nHistory <= history.Length
      reads this, history
    {
      history[..nHistory]
    }

    constructor ()
      ensures Valid() && fresh(banners) && fresh(history) && History() == [] && Faces(banners[..]) == {}
    {
      banners := new Banner[MAX_BANNERS](_ => BLANK);
      history := new Banner[MAX_HISTORY](_ => BLANK);
      nHistory := 0;
    }

    method BannerById(id: int) returns (i: nat)
      requires Valid()
      ensures i == FindBanner(banners[..], id)
    {
      i := 0;
      while i < MAX_BANNERS && !(banners[i].used && banners[i].id == id)
        invariant i <= MAX_BANNERS && forall j :: 0 <= j < i ==> !(banners[j].used && banners[j].id == id)
      {
        i := i + 1;
      }
      assert i < MAX_BANNERS ==> banners[..][i].used && banners[..][i].id == id;
    }

    method OnShow(f: Face)
      requires Valid()
      modifies banners
      ensures Valid() && banners[..] == Shown(old(banners[..]), f) && History() == old(History())
    {
      var i := BannerById(f.id);
      if i == MAX_BANNERS {
        i := 0;
        while i < MAX_BANNERS && banners[i].used
          invariant i <= MAX_BANNERS && forall j :: 0 <= j < i ==> banners[j].used
        {
          i := i + 1;
        }
        assert i < MAX_BANNERS ==> !banners[..][i].used;
        assert i == FreeBanner(banners[..]);
      }
      if i == MAX_BANNERS {
        return;
      }
      banners[i] := Banner(true, f.id, f.app, f.card);
    }

    /** Make room at the front of the history. */
    method ShiftHistory(keep: nat)
      requires Valid() && keep < MAX_HISTORY
      modifies history
      ensures banners[..] == old(banners[..])
      ensures history[1..keep + 1] == old(history[..keep])
    {
      var i := keep;
      while i > 0
        invariant 0 <= i <= keep
        invariant forall j :: i < j <= keep ==> history[j] == old(history[j - 1])
        invariant forall j :: 0 <= j <= i ==> history[j] == old(history[j])
        invariant banners[..] == old(banners[..])
      {
        history[i] := history[i - 1];
        i := i - 1;
      }
    }

    method OnHide(id: int)
      requires Valid()
      modifies this`nHistory, banners, history
      ensures Valid() && banners[..] == Hidden(old(banners[..]), id)
      ensures var i := FindBanner(old(banners[..]), id);
              History() == if i < MAX_BANNERS then Remembered(old(History()), old(banners[..])[i]) else old(History())
    {
      var i := BannerById(id);
      if i == MAX_BANNERS {
        return;
      }
      var keep := if nHistory < MAX_HISTORY then nHistory else MAX_HISTORY - 1;
      ShiftHistory(keep);
      history[0] := banners[i];
      if nHistory < MAX_HISTORY {
        nHistory := nHistory + 1;
      }
      assert history[1..keep + 1] == old(history[..keep]);
      assert history[..keep + 1] == [old(banners[i])] + old(history[..keep]);
      banners[i] := banners[i].(used := false);
    }
  }
}
