/** The offline box generator (src/clustering/generate_3d_bbox.py, lines 10-31):
    one axis-aligned box per cluster label. The labels DBSCAN assigns are an
    input; -1 marks noise. Coordinates are reals. */
module Clustering {
  import opened Geometry
  import opened AnnotationStore

  const Noise: int := -1

  /** `points[labels == label]`: the points carrying `clusterLabel`, in
      order. */
  function Members(points: seq<Vec3>, labels: seq<int>, clusterLabel: int): (m: seq<Vec3>)
    requires |points| == |labels|
    ensures |m| > 0 <==> clusterLabel in labels
    ensures forall i :: 0 <= i < |points| && labels[i] == clusterLabel ==> points[i] in m
    ensures forall q :: q in m ==> exists i :: 0 <= i < |points| && labels[i] == clusterLabel && points[i] == q
  {
    if points == [] then []
    else
      var n := |points| - 1;
      var rest := Members(points[..n], labels[..n], clusterLabel);
      assert labels == labels[..n] + [labels[n]];
      assert forall i :: 0 <= i < n ==> points[..n][i] == points[i] && labels[..n][i] == labels[i];
      if labels[n] == clusterLabel then rest + [points[n]] else rest
  }

  /** The box of one non-empty cluster: centred between the per-axis minimum
      and maximum, sized by their difference, never rotated. */
  function ClusterBox(cluster: seq<Vec3>): (b: BBox3D)
    requires |cluster| > 0
    ensures b.rotation.yaw == 0.0
    ensures forall a :: Get(b.center, a) - Get(b.dimensions, a) / 2.0 == Get(ExtentOf(cluster).lo, a)
    ensures forall a :: Get(b.center, a) + Get(b.dimensions, a) / 2.0 == Get(ExtentOf(cluster).hi, a)
  {
    var e := ExtentOf(cluster);
    BBox3D(Midpoint(e), Size(e), Rotation(0.0))
  }

  /** `cluster_and_generate_bboxes` after the clustering call: each distinct
      label of `labels` is visited once in an unspecified order (that of a
      Python set); noise is skipped and every other label adds its cluster's
      box. `order` is the label behind each box. */
  method ClusterAndGenerateBoxes(points: seq<Vec3>, labels: seq<int>) returns (boxes: seq<BBox3D>, ghost order: seq<int>)
    requires |points| == |labels|
    ensures |boxes| == |order|
    ensures forall l :: l in order <==> l in labels && l != Noise
    ensures forall i, j :: 0 <= i < j < |order| ==> order[i] != order[j]
    ensures forall i :: 0 <= i < |order| ==>
      order[i] in labels && boxes[i] == ClusterBox(Members(points, labels, order[i]))
  {
    var uniqueLabels := set l | l in labels;
    var remaining := uniqueLabels;
    boxes, order := [], [];
    while remaining != {}
      invariant remaining <= uniqueLabels
      invariant |boxes| == |order|
      invariant forall l :: l in labels ==> l in remaining || l == Noise || l in order
      invariant forall l :: l in order ==> l in labels && l != Noise && l !in remaining
      invariant forall i, j :: 0 <= i < j < |order| ==> order[i] != order[j]
      invariant forall i :: 0 <= i < |order| ==>
        order[i] in labels && boxes[i] == ClusterBox(Members(points, labels, order[i]))
      decreases remaining
    {
      SomeLabelRemains(remaining);
      var clusterLabel :| clusterLabel in remaining;
      remaining := remaining - {clusterLabel};
      if clusterLabel == Noise {
        continue;
      }
      var clusterPoints := Members(points, labels, clusterLabel);
      boxes := boxes + [ClusterBox(clusterPoints)];
      order := order + [clusterLabel];
    }
  }

  /** A label can be drawn from a non-empty set of labels. */
  lemma SomeLabelRemains(remaining: set<int>)
    requires remaining != {}
    ensures exists l :: l in remaining
  {
    if forall l :: l !in remaining {
      assert false;
    }
  }

  /** A cluster's box has non-negative dimensions, zero yaw, holds every point
      of the cluster within `center ± dimensions / 2`, and touches a point on
      each of its six faces. */
  lemma ClusterBoxEnclosesCluster(cluster: seq<Vec3>)
    requires |cluster| > 0
    ensures var b := ClusterBox(cluster);
      b.rotation.yaw == 0.0
      && (forall a :: Get(b.dimensions, a) >= 0.0)
      && (forall i, a :: 0 <= i < |cluster| ==>
            Get(b.center, a) - Get(b.dimensions, a) / 2.0 <= Get(cluster[i], a)
            <= Get(b.center, a) + Get(b.dimensions, a) / 2.0)
      && (forall a :: exists i :: (0 <= i < |cluster| &&
            Get(cluster[i], a) == Get(b.center, a) - Get(b.dimensions, a) / 2.0))
      && (forall a :: exists i :: (0 <= i < |cluster| &&
            Get(cluster[i], a) == Get(b.center, a) + Get(b.dimensions, a) / 2.0))
  {
    var e := ExtentOf(cluster);
    assert Inside(cluster[0], e);
    forall a ensures Get(e.lo, a) <= Get(e.hi, a) {
      assert Get(e.lo, a) <= Get(cluster[0], a) <= Get(e.hi, a);
    }
    forall i, a | 0 <= i < |cluster|
      ensures Get(e.lo, a) <= Get(cluster[i], a) <= Get(e.hi, a)
    {
      assert Inside(cluster[i], e);
    }
  }

  /** Every point lies within the box of the cluster its label names. */
  lemma BoxesEncloseTheirClusters(points: seq<Vec3>, labels: seq<int>, clusterLabel: int, i: int)
    requires |points| == |labels| && 0 <= i < |points| && labels[i] == clusterLabel
    ensures var b := ClusterBox(Members(points, labels, clusterLabel));
      forall a :: Get(b.center, a) - Get(b.dimensions, a) / 2.0 <= Get(points[i], a)
                  <= Get(b.center, a) + Get(b.dimensions, a) / 2.0
  {
    var m := Members(points, labels, clusterLabel);
    assert points[i] in m;
    var j :| 0 <= j < |m| && m[j] == points[i];
    ClusterBoxEnclosesCluster(m);
  }
}
