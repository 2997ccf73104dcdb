/**
 * The per-object records of inc/libSTB/ObjectInfo.h: `ObjectInfo` holds a
 * 3D centre, the list of its 2D matches (one per camera), a
 * triangulation error and two flags; `TracerInfo` adds a pixel radius.
 * `TracerInfo` derives from `ObjectInfo` in the source; here it holds its
 * `ObjectInfo` part as a constant field (composition), and the inherited
 * members are reached through that field.
 */
module ObjectInfos {
  import opened STBCommons
  import opened Matrices

  /** The pixel radius a new tracer starts with. */
  const DEFAULT_R_PIXEL: int := 4

  class ObjectInfo {
    var pt_center: Matrix
    /** n_cam matched 2D positions, in pixels. */
    var match_pos_info: seq<Matrix>
    var is_tracked: bool
    var is_fake: bool
    var tri_error: real

    /** A new object: empty centre and match list, not tracked, not fake, zero error. */
    constructor ()
      ensures pt_center == Matrix(0, 0, []) && match_pos_info == []
      ensures !is_tracked && !is_fake && tri_error == 0.0
    {
      pt_center := Matrix(0, 0, []);
      match_pos_info := [];
      is_tracked := false;
      is_fake := false;
      tri_error := 0.0;
    }

    method SetCenterPos(pt: Matrix)
      modifies this
      ensures GetCenterPos() == pt
      ensures match_pos_info == old(match_pos_info) && is_tracked == old(is_tracked)
      ensures is_fake == old(is_fake) && tri_error == old(tri_error)
    {
      pt_center := pt;
    }

    function GetCenterPos(): (pt: Matrix)
      reads this
      ensures pt == pt_center
    {
      pt_center
    }

    /** Replaces the whole match list. */
    method SetMatchPosInfo(list: seq<Matrix>)
      modifies this
      ensures GetMatchPosInfo() == list
      ensures pt_center == old(pt_center) && is_tracked == old(is_tracked)
      ensures is_fake == old(is_fake) && tri_error == old(tri_error)
    {
      match_pos_info := list;
    }

    method ClearMatchPosInfo()
      modifies this
      ensures GetMatchPosInfo() == []
      ensures pt_center == old(pt_center) && is_tracked == old(is_tracked)
      ensures is_fake == old(is_fake) && tri_error == old(tri_error)
    {
      match_pos_info := [];
    }

    /** push_back: the earlier matches are kept, in order, and pt comes last. */
    method AddMatchPosInfo(pt: Matrix)
      modifies this
      ensures GetMatchPosInfo() == old(GetMatchPosInfo()) + [pt]
      ensures pt_center == old(pt_center) && is_tracked == old(is_tracked)
      ensures is_fake == old(is_fake) && tri_error == old(tri_error)
    {
      match_pos_info := match_pos_info + [pt];
    }

    function GetMatchPosInfo(): (list: seq<Matrix>)
      reads this
      ensures list == match_pos_info
    {
      match_pos_info
    }

    /**
     * The match seen by camera cam_id. An id at or past the end of the
     * list is an error; a negative id is not checked, so it is excluded.
     */
    function GetMatchPosInfoAt(cam_id: int): (res: Result<Matrix>)
      reads this
      requires 0 <= cam_id
      ensures res.Err? <==> |match_pos_info| <= cam_id
      ensures res.Err? ==> res.error == ErrorRange
      ensures res.Ok? ==> res.value == match_pos_info[cam_id]
    {
      if cam_id >= |match_pos_info| then Err(ErrorRange) else Ok(match_pos_info[cam_id])
    }

    method SetError(error: real)
      modifies this
      ensures GetError() == error
      ensures pt_center == old(pt_center) && match_pos_info == old(match_pos_info)
      ensures is_tracked == old(is_tracked) && is_fake == old(is_fake)
    {
      tri_error := error;
    }

    function GetError(): (e: real)
      reads this
      ensures e == tri_error
    {
      tri_error
    }

    method SetIsFake(fake: bool)
      modifies this
      ensures IsFake() == fake
      ensures pt_center == old(pt_center) && match_pos_info == old(match_pos_info)
      ensures is_tracked == old(is_tracked) && tri_error == old(tri_error)
    {
      is_fake := fake;
    }

    function IsFake(): (b: bool)
      reads this
      ensures b == is_fake
    {
      is_fake
    }

    method SetIsTrack(tracked: bool)
      modifies this
      ensures IsTrack() == tracked
      ensures pt_center == old(pt_center) && match_pos_info == old(match_pos_info)
      ensures is_fake == old(is_fake) && tri_error == old(tri_error)
    {
      is_tracked := tracked;
    }

    function IsTrack(): (b: bool)
      reads this
      ensures b == is_tracked
    {
      is_tracked
    }
  }

  /** An ObjectInfo with a pixel radius. */
  class TracerInfo {
    /** The ObjectInfo part of the tracer. */
    const base: ObjectInfo
    var r_pixel: int

    /** A new tracer: a new ObjectInfo and radius 4. */
    constructor ()
      ensures fresh(base) && r_pixel == DEFAULT_R_PIXEL
      ensures base.pt_center == Matrix(0, 0, []) && base.match_pos_info == []
      ensures !base.is_tracked && !base.is_fake && base.tri_error == 0.0
    {
      base := new ObjectInfo();
      r_pixel := DEFAULT_R_PIXEL;
    }

    /** A new tracer centred at pt_center, radius 4. */
    constructor AtCenter(pt_center: Matrix)
      ensures fresh(base) && r_pixel == DEFAULT_R_PIXEL
      ensures base.GetCenterPos() == pt_center && base.match_pos_info == []
      ensures !base.is_tracked && !base.is_fake && base.tri_error == 0.0
    {
      var b := new ObjectInfo();
      b.SetCenterPos(pt_center);
      base := b;
      r_pixel := DEFAULT_R_PIXEL;
    }

    /**
     * The copy constructor as written: it copies the ObjectInfo part but,
     * having no initializer for the radius, leaves it at the default 4.
     * (The ObjectInfo part is copied field by field, its memberwise meaning.)
     */
    constructor CopyAsWritten(tracer: TracerInfo)
      ensures fresh(base) && r_pixel == DEFAULT_R_PIXEL
      ensures base.pt_center == tracer.base.pt_center
      ensures base.match_pos_info == tracer.base.match_pos_info
      ensures base.is_tracked == tracer.base.is_tracked && base.is_fake == tracer.base.is_fake
      ensures base.tri_error == tracer.base.tri_error
    {
      var b := CopyObject(tracer.base);
      base := b;
      r_pixel := DEFAULT_R_PIXEL;
    }

    /** A copy of the whole tracer, radius included. */
    constructor Copy(tracer: TracerInfo)
      ensures fresh(base) && r_pixel == tracer.r_pixel
      ensures base.pt_center == tracer.base.pt_center
      ensures base.match_pos_info == tracer.base.match_pos_info
      ensures base.is_tracked == tracer.base.is_tracked && base.is_fake == tracer.base.is_fake
      ensures base.tri_error == tracer.base.tri_error
    {
      var b := CopyObject(tracer.base);
      base := b;
      r_pixel := tracer.r_pixel;
    }

    /** Appends the centre of the other tracer to this tracer's match list. */
    method AddMatchInfo(tracer_info: TracerInfo)
      modifies base
      ensures base.GetMatchPosInfo() == old(base.GetMatchPosInfo()) + [old(tracer_info.base.GetCenterPos())]
      ensures base.pt_center == old(base.pt_center) && base.is_tracked == old(base.is_tracked)
      ensures base.is_fake == old(base.is_fake) && base.tri_error == old(base.tri_error)
      ensures r_pixel == old(r_pixel)
    {
      var pt := tracer_info.base.GetCenterPos();
      base.AddMatchPosInfo(pt);
    }

    function GetRadiusPixel(): (r: int)
      reads this
      ensures r == r_pixel
    {
      r_pixel
    }

    method SetRadiusPixel(r: int)
      modifies this
      ensures GetRadiusPixel() == r
    {
      r_pixel := r;
    }
  }

  /** A fresh ObjectInfo with the same five fields as obj. */
  method CopyObject(obj: ObjectInfo) returns (copy: ObjectInfo)
    ensures fresh(copy)
    ensures copy.pt_center == obj.pt_center && copy.match_pos_info == obj.match_pos_info
    ensures copy.is_tracked == obj.is_tracked && copy.is_fake == obj.is_fake
    ensures copy.tri_error == obj.tri_error
  {
    copy := new ObjectInfo();
    copy.SetCenterPos(obj.pt_center);
    copy.SetMatchPosInfo(obj.match_pos_info);
    copy.SetIsTrack(obj.is_tracked);
    copy.SetIsFake(obj.is_fake);
    copy.SetError(obj.tri_error);
  }

  /**
   * Copying a tracer whose radius is not 4 yields a tracer of radius 4:
   * the radius set on the original is lost.
   */
  method CopyLosesRadius() returns (original: TracerInfo, copy: TracerInfo)
    ensures original.GetRadiusPixel() == 7 && copy.GetRadiusPixel() == 4
    ensures copy.base.GetCenterPos() == original.base.GetCenterPos()
  {
    original := new TracerInfo();
    original.SetRadiusPixel(7);
    copy := new TracerInfo.CopyAsWritten(original);
  }

  /** The corrected copy keeps the radius of the original. */
  method CopyKeepsRadius(tracer: TracerInfo) returns (copy: TracerInfo)
    ensures fresh(copy)
    ensures copy.GetRadiusPixel() == tracer.GetRadiusPixel()
    ensures copy.base.GetCenterPos() == tracer.base.GetCenterPos()
    ensures copy.base.GetMatchPosInfo() == tracer.base.GetMatchPosInfo()
  {
    copy := new TracerInfo.Copy(tracer);
  }
}
