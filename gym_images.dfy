/** The sector-overview image export: for every sector of every configured
    gym, download the sector's overview image at width 3750 into a file named
    after the gym, the sector and its category. The gyms fetched from the API
    are the input; each download's outcome comes from an oracle. */
module GymImages {
  import opened Wrappers
  import opened Strings
  import opened Types
  import Util

  const ImageWidth: int := 3750

  /** The file a sector's image is saved to: spaces in the gym and sector
      names become dashes. */
  function ImagePath(gymName: string, sector: GymSector): string {
    "images/" + Replace(gymName, ' ', '-') + "-" + Replace(sector.name, ' ', '-') + "-" + sector.category + ".jpg"
  }

  /** Where the parts of `images/G-S-C.jpg` sit. */
  lemma PathParts(g: string, s: string, c: string)
    ensures var path := "images/" + g + "-" + s + "-" + c + ".jpg";
            var i := 7 + |g| + 1;
            var j := i + |s| + 1;
            && |path| == j + |c| + 4
            && path[..7] == "images/" && path[7..i - 1] == g && path[i - 1] == '-'
            && path[i..j - 1] == s && path[j - 1] == '-'
            && path[j..j + |c|] == c && path[j + |c|..] == ".jpg"
  {
    var p1 := "images/" + g + "-";
    var p2 := p1 + s + "-";
    var p3 := p2 + c;
    assert p3[..|p2|] == p2 && p3[|p2|..] == c;
    assert p2[..|p1|] == p1 && p2[|p1|..|p1| + |s|] == s;
    assert p1[..7] == "images/" && p1[7..|p1| - 1] == g;
  }

  /** The path is `images/`, the gym name with its spaces turned into dashes,
      `-`, the sector name likewise, `-`, the category unchanged and `.jpg`;
      neither name segment holds a space. */
  lemma ImagePathLayout(gymName: string, sector: GymSector)
    ensures var path := ImagePath(gymName, sector);
            var s := 7 + |gymName| + 1;
            var c := s + |sector.name| + 1;
            && |path| == c + |sector.category| + 4
            && path[..7] == "images/"
            && path[7..s - 1] == Replace(gymName, ' ', '-') && path[s - 1] == '-'
            && path[s..c - 1] == Replace(sector.name, ' ', '-') && path[c - 1] == '-'
            && path[c..c + |sector.category|] == sector.category
            && path[c + |sector.category|..] == ".jpg"
            && ' ' !in path[7..s - 1] && ' ' !in path[s..c - 1]
  {
    PathParts(Replace(gymName, ' ', '-'), Replace(sector.name, ' ', '-'), sector.category);
    ReplaceRemoves(gymName, ' ', '-');
    ReplaceRemoves(sector.name, ' ', '-');
  }

  /** The width asked for is one the API serves, so building the URL never panics. */
  lemma ImageUrlAccepted(id: string)
    ensures Util.FormatImageUrl(id, ImageWidth).Ok?
  {
  }

  /** One download: the image URL and the target file. */
  datatype Download = Download(url: string, path: string)

  function SectorDownload(gymName: string, sector: GymSector): (d: Download)
    ensures d.path == ImagePath(gymName, sector)
    ensures Util.FormatImageUrl(sector.overview, ImageWidth) == Ok(d.url)
  {
    Download(Util.FormatImageUrl(sector.overview, ImageWidth).value, ImagePath(gymName, sector))
  }

  /** The downloads for one gym, one per sector, in sector order. */
  function GymDownloads(gym: Gym): (ds: seq<Download>)
    ensures |ds| == |gym.gymSectors|
  {
    seq(|gym.gymSectors|, s requires 0 <= s < |gym.gymSectors| => SectorDownload(gym.name, gym.gymSectors[s]))
  }

  /** The downloads for the configured gyms, gym by gym. */
  function Downloads(gyms: seq<Gym>): seq<Download> {
    if gyms == [] then [] else Downloads(gyms[..|gyms| - 1]) + GymDownloads(gyms[|gyms| - 1])
  }

  /** One download per sector of each gym. */
  function SectorCount(gyms: seq<Gym>): nat {
    if gyms == [] then 0 else SectorCount(gyms[..|gyms| - 1]) + |gyms[|gyms| - 1].gymSectors|
  }

  lemma {:induction false} DownloadsLength(gyms: seq<Gym>)
    ensures |Downloads(gyms)| == SectorCount(gyms)
  {
    if gyms != [] {
      DownloadsLength(gyms[..|gyms| - 1]);
    }
  }

  lemma DownloadsSnoc(gyms: seq<Gym>, g: nat)
    requires g < |gyms|
    ensures Downloads(gyms[..g + 1]) == Downloads(gyms[..g]) + GymDownloads(gyms[g])
  {
    assert gyms[..g + 1][..g] == gyms[..g];
  }

  /** The downloads of the first gyms come first. */
  lemma {:induction false} DownloadsPrefix(gyms: seq<Gym>, g: nat)
    requires g <= |gyms|
    decreases |gyms| - g
    ensures |Downloads(gyms[..g])| <= |Downloads(gyms)|
    ensures Downloads(gyms)[..|Downloads(gyms[..g])|] == Downloads(gyms[..g])
  {
    if g == |gyms| {
      assert gyms[..g] == gyms;
    } else {
      DownloadsPrefix(gyms, g + 1);
      DownloadsSnoc(gyms, g);
    }
  }

  /** Every one of some downloads succeeded. */
  predicate Succeeded(download: Download -> Result<()>, ds: seq<Download>) {
    forall k :: 0 <= k < |ds| ==> download(ds[k]).Ok?
  }

  lemma SucceededAppend(download: Download -> Result<()>, a: seq<Download>, b: seq<Download>)
    ensures Succeeded(download, a + b) <==> Succeeded(download, a) && Succeeded(download, b)
  {
    if Succeeded(download, a) && Succeeded(download, b) {
      forall k | 0 <= k < |a + b|
        ensures download((a + b)[k]).Ok?
      {
        if k >= |a| {
          assert (a + b)[k] == b[k - |a|];
        }
      }
    }
    if Succeeded(download, a + b) {
      forall k | 0 <= k < |a|
        ensures download(a[k]).Ok?
      {
        assert (a + b)[k] == a[k];
      }
      forall k | 0 <= k < |b|
        ensures download(b[k]).Ok?
      {
        assert (a + b)[|a| + k] == b[k];
      }
    }
  }

  lemma PrefixOfPrefix(a: seq<Download>, b: seq<Download>, c: seq<Download>)
    requires |a| <= |b| <= |c| && a == b[..|a|] && b == c[..|b|]
    ensures a == c[..|a|]
  {
  }

  /** The downloads made before one gym's loop stopped early are a prefix of
      all the downloads. */
  lemma PartialGymIsPrefix(gyms: seq<Gym>, g: nat, gymMade: seq<Download>)
    requires g < |gyms|
    requires |gymMade| <= |GymDownloads(gyms[g])| && gymMade == GymDownloads(gyms[g])[..|gymMade|]
    ensures var made := Downloads(gyms[..g]) + gymMade;
            |made| <= |Downloads(gyms)| && made == Downloads(gyms)[..|made|]
  {
    DownloadsSnoc(gyms, g);
    DownloadsPrefix(gyms, g + 1);
    var made := Downloads(gyms[..g]) + gymMade;
    var whole := Downloads(gyms[..g]) + GymDownloads(gyms[g]);
    assert made == whole[..|made|];
    PrefixOfPrefix(made, whole, Downloads(gyms));
  }

  /** A failure inside one gym's loop is the last of all the downloads made,
      and every download before it succeeded. */
  lemma FailureAfterSuccesses(download: Download -> Result<()>, before: seq<Download>, gymMade: seq<Download>)
    requires Succeeded(download, before)
    requires gymMade != [] && Succeeded(download, gymMade[..|gymMade| - 1])
    ensures var made := before + gymMade;
            made[|made| - 1] == gymMade[|gymMade| - 1] && Succeeded(download, made[..|made| - 1])
  {
    var made := before + gymMade;
    assert made[..|made| - 1] == before + gymMade[..|gymMade| - 1];
    SucceededAppend(download, before, gymMade[..|gymMade| - 1]);
  }

  /** The downloads of one gym's sectors, in order, stopping at the first
      that fails. */
  method SaveGym(gym: Gym, download: Download -> Result<()>)
    returns (r: Result<()>, made: seq<Download>)
    ensures |made| <= |GymDownloads(gym)| && made == GymDownloads(gym)[..|made|]
    ensures r.Ok? ==> made == GymDownloads(gym) && Succeeded(download, made)
    ensures r.Err? ==> made != [] && Succeeded(download, made[..|made| - 1]) && r == download(made[|made| - 1])
  {
    made := [];
    for s := 0 to |gym.gymSectors|
      invariant made == GymDownloads(gym)[..s]
      invariant Succeeded(download, made)
    {
      var d := SectorDownload(gym.name, gym.gymSectors[s]);
      assert GymDownloads(gym)[..s + 1] == GymDownloads(gym)[..s] + [d];
      ghost var before := made;
      made := made + [d];
      assert made[..|made| - 1] == before;
      var outcome := download(d);
      if outcome.Err? {
        return outcome, made;
      }
      SucceededAppend(download, before, [d]);
    }
    assert GymDownloads(gym)[..|gym.gymSectors|] == GymDownloads(gym);
    r := Ok(());
  }

  /** A gym whose downloads all succeeded extends the finished prefix. */
  lemma GymDone(download: Download -> Result<()>, gyms: seq<Gym>, g: nat, before: seq<Download>,
                gymMade: seq<Download>)
    requires g < |gyms| && before == Downloads(gyms[..g]) && Succeeded(download, before)
    requires gymMade == GymDownloads(gyms[g]) && Succeeded(download, gymMade)
    ensures before + gymMade == Downloads(gyms[..g + 1]) && Succeeded(download, before + gymMade)
  {
    DownloadsSnoc(gyms, g);
    SucceededAppend(download, before, gymMade);
  }

  /** A gym whose loop stopped at a failure ends the export: what was made
      is a prefix of all the downloads, ending with the failure. */
  lemma GymStopped(download: Download -> Result<()>, gyms: seq<Gym>, g: nat, before: seq<Download>,
                   gymMade: seq<Download>)
    requires g < |gyms| && before == Downloads(gyms[..g]) && Succeeded(download, before)
    requires |gymMade| <= |GymDownloads(gyms[g])| && gymMade == GymDownloads(gyms[g])[..|gymMade|]
    requires gymMade != [] && Succeeded(download, gymMade[..|gymMade| - 1])
    ensures var made := before + gymMade;
            && |made| <= |Downloads(gyms)| && made == Downloads(gyms)[..|made|]
            && made[|made| - 1] == gymMade[|gymMade| - 1] && Succeeded(download, made[..|made| - 1])
  {
    PartialGymIsPrefix(gyms, g, gymMade);
    FailureAfterSuccesses(download, before, gymMade);
  }

  /** The export loop: the downloads in gym and sector order, stopping at the
      first that fails. */
  method SaveImages(gyms: seq<Gym>, download: Download -> Result<()>)
    returns (r: Result<()>, made: seq<Download>)
    ensures |made| <= |Downloads(gyms)| && made == Downloads(gyms)[..|made|]
    ensures r.Ok? ==> made == Downloads(gyms) && Succeeded(download, made)
    ensures r.Err? ==> made != [] && Succeeded(download, made[..|made| - 1]) && r == download(made[|made| - 1])
  {
    made := [];
    for g := 0 to |gyms|
      invariant made == Downloads(gyms[..g])
      invariant Succeeded(download, made)
    {
      var result, gymMade := SaveGym(gyms[g], download);
      if result.Err? {
        GymStopped(download, gyms, g, made, gymMade);
        return result, made + gymMade;
      }
      GymDone(download, gyms, g, made, gymMade);
      made := made + gymMade;
    }
    assert gyms[..|gyms|] == gyms;
    assert Downloads(gyms)[..|made|] == made;
    r := Ok(());
  }
}
