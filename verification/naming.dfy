/**
 Deterministic names: a segment is named after its job and ordinal, and its
 audio lives at a cache path derived from the segment name alone, so no
 secondary index is needed to find a job's audio.
 */
module Naming {

  import opened Decimal

  const SegmentMarker := "-seg-"

  /** `generate_segment_id`: `{job_id}-seg-{index}`. */
  function SegmentId(jobId: string, index: nat): (r: string)
    ensures |r| > |jobId| + |SegmentMarker|
    ensures r[..|jobId|] == jobId
    ensures r[|jobId|..|jobId| + |SegmentMarker|] == SegmentMarker
    ensures AllDigits(r[|jobId| + |SegmentMarker|..])
    ensures DecimalValue(r[|jobId| + |SegmentMarker|..]) == index
    ensures var digits := r[|jobId| + |SegmentMarker|..]; |digits| > 1 ==> digits[0] != '0'
  {
    var digits := NatToString(index);
    DecimalRoundTrip(index);
    var r := jobId + SegmentMarker + digits;
    assert r[|jobId| + |SegmentMarker|..] == digits;
    r
  }

  /** `get_cache_path`: `{cache_dir}/{segment_id}{ext}`. The job id argument
      is accepted and ignored, as in the services. */
  function CachePath(cacheDir: string, jobId: string, segmentId: string, ext: string): (r: string)
    ensures |r| == |cacheDir| + 1 + |segmentId| + |ext|
    ensures r[..|cacheDir| + 1] == cacheDir + "/"
    ensures r[|cacheDir| + 1..|r| - |ext|] == segmentId
    ensures r[|r| - |ext|..] == ext
  {
    cacheDir + "/" + segmentId + ext
  }

  /** The `audio_url` a completed segment advertises. */
  function AudioUrl(jobId: string, segmentId: string): string {
    "/v1/tts/jobs/" + jobId + "/segments/" + segmentId + "/audio"
  }

  /** Two segment names coincide only for the same job and the same index:
      no two (job, segment) pairs share a name. */
  lemma SegmentIdInjective(j1: string, i1: nat, j2: string, i2: nat)
    requires SegmentId(j1, i1) == SegmentId(j2, i2)
    ensures j1 == j2 && i1 == i2
  {
    if |j1| < |j2| {
      MarkerCannotShift(j1, NatToString(i1), j2, NatToString(i2));
    } else if |j2| < |j1| {
      MarkerCannotShift(j2, NatToString(i2), j1, NatToString(i1));
    } else {
      var s := SegmentId(j1, i1);
      assert j1 == s[..|j1|] == j2;
      assert NatToString(i1) == s[|j1| + |SegmentMarker|..] == NatToString(i2);
      NatToStringInjective(i1, i2);
    }
  }

  /** With a shorter job id on the left, the marker of the longer id would
      have to sit on top of the left marker or its digits, which it cannot. */
  lemma MarkerCannotShift(j1: string, d1: string, j2: string, d2: string)
    requires |j1| < |j2|
    requires d1 != [] && AllDigits(d1)
    ensures j1 + SegmentMarker + d1 != j2 + SegmentMarker + d2
  {
    var s1 := j1 + SegmentMarker + d1;
    var s2 := j2 + SegmentMarker + d2;
    var p := |j2|;
    assert s2[p] == '-' && s2[p + 1] == 's';
    if p < |s1| {
      if p >= |j1| + 5 {
        assert s1[p] == d1[p - |j1| - 5];
      } else if p == |j1| + 4 {
        assert s1[p + 1] == d1[0];
      } else {
        assert s1[p] == SegmentMarker[p - |j1|];
      }
    }
  }

  /** Distinct segment names never share a cache file, whatever job id the
      caller passes. */
  lemma CachePathInjective(cacheDir: string, j1: string, s1: string, j2: string, s2: string, ext: string)
    requires CachePath(cacheDir, j1, s1, ext) == CachePath(cacheDir, j2, s2, ext)
    ensures s1 == s2
  {
  }
}
