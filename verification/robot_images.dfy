/** Output naming of the robot-order script: `download_robot_images` keeps the
    preview images that have a `src` and names each file by its position among
    all preview elements; `generate_order_pdf` derives the merged-image and PDF
    paths from the order number. */
module RobotImages {
  import opened Optional
  import opened Actions
  import opened Text

  const ImageFolder := "order_images"
  const PdfFolder := "order_details"

  /** `f"robot_part_{i}.png"`. */
  function ImageName(i: nat): string {
    "robot_part_" + NatToString(i) + ".png"
  }

  function ImagePath(folder: string, i: nat): string {
    PathJoin(folder, ImageName(i))
  }

  /** Two positions never share a file name, in any folder. */
  lemma ImagePathInjective(folder: string, i: nat, j: nat)
    ensures ImagePath(folder, i) == ImagePath(folder, j) ==> i == j
  {
    if ImagePath(folder, i) == ImagePath(folder, j) {
      var p := JoinPrefix(folder) + "robot_part_";
      assert ImagePath(folder, i) == p + NatToString(i) + ".png" by {
        assert ImageName(i)[0] == 'r';
      }
      assert ImagePath(folder, j) == p + NatToString(j) + ".png" by {
        assert ImageName(j)[0] == 'r';
      }
      SandwichCancel(JoinPrefix(folder) + "robot_part_", NatToString(i), NatToString(j), ".png");
      NatToStringInjective(i, j);
    }
  }

  /** The positions, from `from` on, of the elements whose `src` is non-empty, ascending. */
  function KeptFrom(srcs: seq<string>, from: nat): (ks: seq<nat>)
    requires from <= |srcs|
    ensures forall k :: 0 <= k < |ks| ==> from <= ks[k] < |srcs| && srcs[ks[k]] != ""
    ensures forall k, l :: 0 <= k < l < |ks| ==> ks[k] < ks[l]
    ensures forall i :: from <= i < |srcs| && srcs[i] != "" ==> i in ks
    decreases |srcs| - from
  {
    if from == |srcs| then []
    else if srcs[from] != "" then [from] + KeptFrom(srcs, from + 1)
    else KeptFrom(srcs, from + 1)
  }

  function Kept(srcs: seq<string>): seq<nat> {
    KeptFrom(srcs, 0)
  }

  datatype Downloads = Downloads(paths: seq<string>, run: Run)

  /** One download per listed position, in list order. */
  function DownloadsFor(folder: string, srcs: seq<string>, ks: seq<nat>): seq<Action>
    requires forall k :: 0 <= k < |ks| ==> ks[k] < |srcs|
    decreases |ks|
  {
    if |ks| == 0 then []
    else [Download(srcs[ks[0]], ImagePath(folder, ks[0]))] + DownloadsFor(folder, srcs, ks[1..])
  }

  /** The file name of every listed position, in list order. */
  function PathsFor(folder: string, ks: seq<nat>): seq<string>
    decreases |ks|
  {
    if |ks| == 0 then [] else [ImagePath(folder, ks[0])] + PathsFor(folder, ks[1..])
  }

  lemma {:induction false} PathsForAt(folder: string, ks: seq<nat>)
    ensures |PathsFor(folder, ks)| == |ks|
    ensures forall k :: 0 <= k < |ks| ==> PathsFor(folder, ks)[k] == ImagePath(folder, ks[k])
    decreases |ks|
  {
    if |ks| > 0 {
      PathsForAt(folder, ks[1..]);
    }
  }

  /** Keeping element `i` puts its download and its path in front of the rest. */
  lemma KeptStep(folder: string, srcs: seq<string>, failing: set<Action>, i: nat)
    requires i < |srcs| && srcs[i] != ""
    ensures PerformAll(DownloadsFor(folder, srcs, KeptFrom(srcs, i)), failing)
         == Then(Perform(Download(srcs[i], ImagePath(folder, i)), failing),
                 PerformAll(DownloadsFor(folder, srcs, KeptFrom(srcs, i + 1)), failing))
    ensures PathsFor(folder, KeptFrom(srcs, i)) == [ImagePath(folder, i)] + PathsFor(folder, KeptFrom(srcs, i + 1))
  {
    var ks := KeptFrom(srcs, i + 1);
    assert ([i] + ks)[1..] == ks;
    PerformAllCons(Download(srcs[i], ImagePath(folder, i)), DownloadsFor(folder, srcs, ks), failing);
  }

  /** The download loop from element `i` on. */
  function DownloadFrom(folder: string, srcs: seq<string>, failing: set<Action>, i: nat): (d: Downloads)
    requires i <= |srcs|
    ensures d.run == PerformAll(DownloadsFor(folder, srcs, KeptFrom(srcs, i)), failing)
    ensures d.run.Ok() ==> d.paths == PathsFor(folder, KeptFrom(srcs, i))
    decreases |srcs| - i
  {
    if i == |srcs| then Downloads([], Run([], None))
    else if srcs[i] == "" then DownloadFrom(folder, srcs, failing, i + 1)
    else
      KeptStep(folder, srcs, failing, i);
      Downloads([ImagePath(folder, i)] + DownloadFrom(folder, srcs, failing, i + 1).paths,
                Then(Perform(Download(srcs[i], ImagePath(folder, i)), failing),
                     DownloadFrom(folder, srcs, failing, i + 1).run))
  }

  /** `download_robot_images(folder_path)`: the downloads attempted are one per
      element with a `src`, in element order, each named by the element's
      position; the first download that raises ends the call. */
  function DownloadRobotImages(folder: string, srcs: seq<string>, failing: set<Action>): (d: Downloads)
    ensures d.run == PerformAll(DownloadsFor(folder, srcs, Kept(srcs)), failing)
    ensures d.run.Ok() ==> d.paths == PathsFor(folder, Kept(srcs))
  {
    DownloadFrom(folder, srcs, failing, 0)
  }

  /** The downloaded paths are pairwise distinct, and there is one per element with a `src`. */
  lemma DownloadedPathsDistinct(folder: string, srcs: seq<string>, failing: set<Action>)
    requires DownloadRobotImages(folder, srcs, failing).run.Ok()
    ensures var ps := DownloadRobotImages(folder, srcs, failing).paths;
      && (forall k, l :: 0 <= k < l < |ps| ==> ps[k] != ps[l])
      && (forall i :: 0 <= i < |srcs| && srcs[i] != "" ==> ImagePath(folder, i) in ps)
  {
    var ps := DownloadRobotImages(folder, srcs, failing).paths;
    var ks := Kept(srcs);
    PathsForAt(folder, ks);
    forall k, l | 0 <= k < l < |ps|
      ensures ps[k] != ps[l]
    {
      ImagePathInjective(folder, ks[k], ks[l]);
    }
    forall i | 0 <= i < |srcs| && srcs[i] != ""
      ensures ImagePath(folder, i) in ps
    {
      var k :| 0 <= k < |ks| && ks[k] == i;
      assert ps[k] == ImagePath(folder, i);
    }
  }

  /** Positions, not download counts, name the files: an element without a `src`
      leaves a gap in the numbering. */
  lemma NamesKeepGaps()
    ensures DownloadRobotImages(ImageFolder, ["a.png", "", "c.png"], {}).paths
         == ["order_images/robot_part_0.png", "order_images/robot_part_2.png"]
  {
    var srcs := ["a.png", "", "c.png"];
    KeptExample();
    var d := DownloadRobotImages(ImageFolder, srcs, {});
    assert d.run.Ok();
    assert d.paths == PathsFor(ImageFolder, [0, 2]);
    PathsExample();
  }

  lemma KeptExample()
    ensures Kept(["a.png", "", "c.png"]) == [0, 2]
  {
    var srcs := ["a.png", "", "c.png"];
    assert KeptFrom(srcs, 2) == [2];
    assert KeptFrom(srcs, 1) == [2];
  }

  lemma PathsExample()
    ensures PathsFor(ImageFolder, [0, 2]) == ["order_images/robot_part_0.png", "order_images/robot_part_2.png"]
  {
    FirstImagePath();
    ThirdImagePath();
    assert [0, 2][1..] == [2];
    assert PathsFor(ImageFolder, [2]) == [ImagePath(ImageFolder, 2)];
  }

  lemma FirstImagePath()
    ensures ImagePath(ImageFolder, 0) == "order_images/robot_part_0.png"
  {
    assert NatToString(0) == "0";
  }

  lemma ThirdImagePath()
    ensures ImagePath(ImageFolder, 2) == "order_images/robot_part_2.png"
  {
    assert NatToString(2) == "2";
  }

  /** `os.path.join(folder_path, f"merged_robot_image_{order_id}.png")`. */
  function MergedImagePath(folder: string, orderId: string): string {
    PathJoin(folder, "merged_robot_image_" + orderId + ".png")
  }

  /** `f"order_details/{order_id}.pdf"`. */
  function PdfPath(orderId: string): (p: string)
    ensures |p| > 0 && p[0] != '/'
  {
    PdfFolder + "/" + orderId + ".pdf"
  }

  /** Every order number gets its own PDF and its own merged image, and the
      order number appears in the PDF path. */
  lemma OrderPathsInjective(folder: string, a: string, b: string)
    ensures PdfPath(a) == PdfPath(b) ==> a == b
    ensures MergedImagePath(folder, a) == MergedImagePath(folder, b) ==> a == b
    ensures PdfPath(a)[|PdfFolder| + 1..|PdfFolder| + 1 + |a|] == a
  {
    if PdfPath(a) == PdfPath(b) {
      SandwichCancel(PdfFolder + "/", a, b, ".pdf");
    }
    if MergedImagePath(folder, a) == MergedImagePath(folder, b) {
      var p := JoinPrefix(folder) + "merged_robot_image_";
      assert MergedImagePath(folder, a) == p + a + ".png" by {
        assert ("merged_robot_image_" + a + ".png")[0] == 'm';
      }
      assert MergedImagePath(folder, b) == p + b + ".png" by {
        assert ("merged_robot_image_" + b + ".png")[0] == 'm';
      }
      SandwichCancel(JoinPrefix(folder) + "merged_robot_image_", a, b, ".png");
    }
  }
}
