/**
 * The reference gallery: character images and their display names, kept by
 * the page as two parallel arrays that every operation updates together.
 */
module Gallery {
  import opened Wrappers

  /** The upload control refuses to open once this many references are held. */
  const MaxReferences: nat := 5
  const CapNotice := "Maximum 5 character images allowed."

  /** `s.filter((_, i) => i !== k)`: every element whose index is not `k`, in order. */
  function KeepOthers<T>(s: seq<T>, k: int): (r: seq<T>)
    ensures |r| == if 0 <= k < |s| then |s| - 1 else |s|
    decreases |s|
  {
    if s == [] then []
    else KeepOthers(s[..|s| - 1], k) + (if |s| - 1 != k then [s[|s| - 1]] else [])
  }

  /** Filtering out index `k` cuts exactly that element and nothing else. */
  lemma {:induction false} KeepOthersCuts<T>(s: seq<T>, k: int)
    ensures KeepOthers(s, k) == if 0 <= k < |s| then s[..k] + s[k + 1..] else s
    decreases |s|
  {
    if s != [] {
      var init, last := s[..|s| - 1], s[|s| - 1];
      assert s == init + [last];
      KeepOthersCuts(init, k);
      if k == |s| - 1 {
        assert s[..k] == init && s[k + 1..] == [];
      } else if 0 <= k < |s| - 1 {
        calc {
          KeepOthers(s, k);
          KeepOthers(init, k) + [last];
          (init[..k] + init[k + 1..]) + [last];
          init[..k] + (init[k + 1..] + [last]);
          { assert init[k + 1..] + [last] == s[k + 1..]; }
          s[..k] + s[k + 1..];
        }
      }
    }
  }

  /** Survivors keep their order: those before `k` stay put, those after move down one. */
  lemma RemovalShiftsDown<T>(s: seq<T>, k: nat, j: nat)
    requires k < |s| && j < |s| - 1
    ensures KeepOthers(s, k)[j] == if j < k then s[j] else s[j + 1]
  {
    KeepOthersCuts(s, k);
  }

  function Zip<A, B>(a: seq<A>, b: seq<B>): (r: seq<(A, B)>)
    requires |a| == |b|
    ensures |r| == |a| && forall i :: 0 <= i < |a| ==> r[i] == (a[i], b[i])
  {
    seq(|a|, i requires 0 <= i < |a| => (a[i], b[i]))
  }

  /** Removing index `k` from both arrays removes the same (image, name) pair:
      no image is left with another character's name. */
  lemma RemovalKeepsPairs<A, B>(a: seq<A>, b: seq<B>, k: int)
    requires |a| == |b|
    ensures |KeepOthers(a, k)| == |KeepOthers(b, k)|
    ensures Zip(KeepOthers(a, k), KeepOthers(b, k)) == KeepOthers(Zip(a, b), k)
  {
    KeepOthersCuts(a, k);
    KeepOthersCuts(b, k);
    KeepOthersCuts(Zip(a, b), k);
    if 0 <= k < |a| {
      var a', b', z' := a[..k] + a[k + 1..], b[..k] + b[k + 1..], Zip(a, b)[..k] + Zip(a, b)[k + 1..];
      assert forall j :: 0 <= j < |z'| ==> z'[j] == (a'[j], b'[j]);
      assert Zip(a', b') == z';
    } else {
      assert Zip(a, b) == KeepOthers(Zip(a, b), k);
    }
  }

  /** The page's `referenceImages` / `referenceNames` state. */
  class References {
    var images: seq<string>
    var names: seq<string>

    /** The two arrays describe one entry per index. */
    ghost predicate Valid()
      reads this
    {
      |images| == |names|
    }

    /** The cap the upload control maintains. */
    ghost predicate WithinCap()
      reads this
    {
      |images| <= MaxReferences
    }

    constructor ()
      ensures Valid() && WithinCap()
      ensures images == [] && names == []
    {
      images := [];
      names := [];
    }

    /** `triggerFileUpload`: opens the file picker only below the cap;
        at the cap it shows a notice and changes nothing. */
    method TriggerUpload() returns (opensPicker: bool, notice: Option<string>)
      ensures opensPicker <==> |images| < MaxReferences
      ensures notice == if opensPicker then None else Some(CapNotice)
    {
      if |images| >= MaxReferences {
        return false, Some(CapNotice);
      }
      return true, None;
    }

    /** `handleFileUpload` once the reader has loaded: `picked` is the data URL
        read from the chosen file, `None` when no file was chosen. An empty
        result is falsy and ignored. No cap is checked here. */
    method HandleFileUpload(picked: Option<string>)
      requires Valid()
      modifies this
      ensures Valid()
      ensures picked.Some? && picked.value != "" ==>
        images == old(images) + [picked.value] && names == old(names) + [""]
      ensures !(picked.Some? && picked.value != "") ==>
        images == old(images) && names == old(names)
    {
      if picked.Some? && picked.value != "" {
        images := images + [picked.value];
        names := names + [""];
      }
    }

    /** The upload path the page offers: the trigger, then the one file chosen. */
    method UploadThroughUi(picked: Option<string>) returns (notice: Option<string>)
      requires Valid() && WithinCap()
      modifies this
      ensures Valid() && WithinCap()
      ensures |old(images)| >= MaxReferences ==>
        images == old(images) && names == old(names) && notice == Some(CapNotice)
      ensures |old(images)| < MaxReferences ==> notice == None
      ensures |old(images)| < MaxReferences && picked.Some? && picked.value != "" ==>
        images == old(images) + [picked.value] && names == old(names) + [""]
      ensures |old(images)| < MaxReferences && !(picked.Some? && picked.value != "") ==>
        images == old(images) && names == old(names)
    {
      var opens;
      opens, notice := TriggerUpload();
      if opens {
        HandleFileUpload(picked);
      }
    }

    /** `handleNameChange`: renames one entry; images and other names stay. */
    method HandleNameChange(index: nat, newName: string)
      requires Valid() && index < |names|
      modifies this
      ensures Valid() && WithinCap() == old(WithinCap())
      ensures names == old(names)[index := newName]
      ensures images == old(images)
    {
      var updated := names;
      updated := updated[index := newName];
      names := updated;
    }

    /** `removeReference`: filters index `index` out of both arrays; an index
        outside the arrays leaves them as they were. */
    method RemoveReference(index: int)
      requires Valid()
      modifies this
      ensures Valid() && (old(WithinCap()) ==> WithinCap())
      ensures images == KeepOthers(old(images), index)
      ensures names == KeepOthers(old(names), index)
    {
      images := KeepOthers(images, index);
      names := KeepOthers(names, index);
    }
  }
}
