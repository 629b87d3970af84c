/**
 The image file, the loop device and the mounts that assembling USB media goes through, when any
 call to the host may fail.

 A failed attach, mount or removal has done nothing, and a failed detach or unmount has undone
 nothing.
 */
module MediaAssembly {
  datatype Partition = P2 | P3

  class Host {
    var image: bool          // the output image exists
    var attached: bool       // a loop device is attached to it
    var mounted: set<Partition>
    // The image was removed, or its loop device detached, while something still used it.
    ghost var harmed: bool
    // How many steps have failed, and the partitions whose content has been copied.
    ghost var faults: nat
    ghost var populated: set<Partition>

    constructor (existing: bool)
      ensures image == existing && !attached && mounted == {} && !harmed && faults == 0 && populated == {}
    {
      image, attached, mounted, harmed, faults, populated := existing, false, {}, false, 0, {};
    }

    // A step that may fail.
    method Step() returns (ok: bool)
      modifies `faults
      ensures faults == old(faults) + if ok then 0 else 1
    {
      ok := *;
      if !ok { faults := faults + 1; }
    }

    // Nothing is attached without an image, and nothing mounted without a loop device.
    ghost predicate Safe() reads this {
      !harmed && (attached ==> image) && (mounted != {} ==> attached)
    }

    predicate Nothing() reads this {
      !image && !attached && mounted == {}
    }

    method AttachLoopback() returns (ok: bool)
      modifies `attached, `faults
      ensures attached == (old(attached) || ok) && faults == old(faults) + if ok then 0 else 1
    {
      ok := Step();
      if ok { attached := true; }
    }

    // Tolerates a device that is detached already.
    method DetachLoopback(fails: bool) returns (ok: bool)
      modifies `attached, `harmed, `faults
      ensures ok == !(attached && fails) && attached == (old(attached) && fails)
      ensures harmed == (old(harmed) || (old(attached) && !attached && mounted != {}))
      ensures faults == old(faults) + if ok then 0 else 1
    {
      ok := !(attached && fails);
      if ok {
        harmed := harmed || (attached && mounted != {});
        attached := false;
      } else {
        faults := faults + 1;
      }
    }

    // os.Remove, to which a missing file is no error.
    method RemoveImage(fails: bool) returns (ok: bool)
      modifies `image, `harmed, `faults
      ensures ok == !(old(image) && fails) && image == (old(image) && fails)
      ensures harmed == (old(harmed) || (old(image) && !image && (attached || mounted != {})))
      ensures faults == old(faults) + if ok then 0 else 1
    {
      ok := !(image && fails);
      if ok {
        harmed := harmed || (image && (attached || mounted != {}));
        image := false;
      } else {
        faults := faults + 1;
      }
    }

    // writeLiveISOToFront: refuses an existing path, and removes what it created when it fails.
    method WriteLiveISO() returns (ok: bool)
      requires Safe()
      modifies `image, `faults
      ensures Safe() && faults >= old(faults) && (ok <==> !old(image) && faults == old(faults))
      ensures old(image) || ok ==> image
      ensures !ok && faults <= old(faults) + 1 ==> image == old(image)
    {
      if image { return false; }
      image := true;
      ok := Step();
      if !ok {
        var removed := Step();
        image := !removed;
      }
    }

    // copyStagedIBIImages and populateClusterConfig: mount, copy, and always unmount. It succeeds
    // exactly when no step fails, and then the content is there.
    method Populate(p: Partition) returns (ok: bool, stillMounted: bool)
      requires Safe() && attached && p !in mounted
      modifies `mounted, `faults, `populated
      ensures Safe() && faults >= old(faults) && (ok <==> faults == old(faults))
      ensures mounted == if stillMounted then old(mounted) + {p} else old(mounted)
      ensures ok ==> !stillMounted && populated == old(populated) + {p}
      ensures !ok && !stillMounted ==> faults == old(faults) + 1
    {
      stillMounted := false;
      var resolved := Step();
      if !resolved { return false, false; }
      var couldMount := Step();
      if !couldMount { return false, false; }
      mounted := mounted + {p};
      ok := Step(); // enough space, and the copy
      if ok { populated := populated + {p}; }
      var unmounts := Step();
      if unmounts {
        mounted := mounted - {p};
      } else {
        ok, stillMounted := false, true;
      }
    }

    // The partitions with content.
    function Populated(selfContained: bool): set<Partition> {
      if selfContained then {P2, P3} else {P2}
    }

    // What assembleMedia does after the image is created; tagged: the error is errP2Mounted or
    // errP3Mounted.
    method AppendAndPopulate(selfContained: bool) returns (ok: bool, tagged: bool)
      requires Safe() && image && !attached && mounted == {} && populated == {}
      modifies `attached, `mounted, `faults, `populated
      ensures Safe() && (tagged <==> mounted != {})
      ensures faults >= old(faults) && (ok <==> faults == old(faults))
      ensures ok ==> attached && !tagged && populated == Populated(selfContained)
      ensures !ok && !tagged ==> faults == old(faults) + 1
    {
      tagged := false;
      ok := AttachLoopback();
      if !ok { return; }
      var appended := Step(); // snapshot, append, resolve and format
      if !appended { return false, false; }
      ok, tagged := Populate(P2);
      if !ok || !selfContained { return; }
      ok, tagged := Populate(P3);
    }

    // assembleMedia with its deferred rollback.
    method AssembleMedia(selfContained: bool) returns (handle: MediaHandle?)
      requires Safe() && !attached && mounted == {} && populated == {}
      modifies this
      ensures Safe() && faults >= old(faults)
      // It gives a handle exactly when there was no image and no step fails.
      ensures handle != null <==> !old(image) && faults == old(faults)
      ensures handle != null ==> fresh(handle) && handle.host == this && handle.Valid() && attached && mounted == {}
      ensures handle != null ==> handle.imagePath && handle.isImage && populated == Populated(selfContained)
      // A failure leaves both image and loop device for recovery, or no device and nothing mounted.
      ensures handle == null && attached ==> image
      // Nothing is left unless a partition is still mounted or the rollback fails too.
      ensures handle == null && mounted == {} && faults <= old(faults) + 1 ==> !attached && image == old(image)
      // An image that was there before is never touched.
      ensures old(image) ==> image && !attached
    {
      handle := null;
      var planned := Step(); // validation, staging, sizing, budget
      if !planned { return; }
      var written := WriteLiveISO();
      if !written { return; }
      var ok, tagged := AppendAndPopulate(selfContained);
      if ok {
        handle := new MediaHandle(this);
        return;
      }
      if tagged { return; }
      if attached {
        var fails := *;
        var detached := DetachLoopback(fails);
        if !detached { return; }
      }
      var fails := *;
      var removed := RemoveImage(fails); // a failure is only logged
    }

    // build: assemble and finalize. It succeeds exactly when there was no image and no step fails.
    method Build(selfContained: bool) returns (ok: bool)
      requires Safe() && !attached && mounted == {} && populated == {}
      modifies this
      ensures Safe() && faults >= old(faults) && (ok <==> !old(image) && faults == old(faults))
      ensures ok ==> image && !attached && mounted == {} && populated == Populated(selfContained)
      ensures old(image) ==> image && !attached
    {
      var handle := AssembleMedia(selfContained);
      if handle == null { return false; }
      var fails := *;
      ok := handle.Finalize(fails);
    }
  }

  datatype Attempt = Attempt(detachFails: bool, removeFails: bool)

  // imagePath, loopDevice: the fields are not empty.
  class MediaHandle {
    var imagePath: bool
    var loopDevice: bool
    const isImage: bool
    const host: Host

    constructor (h: Host)
      ensures imagePath && loopDevice && isImage && host == h
    {
      imagePath, loopDevice, isImage, host := true, true, true, h;
    }

    // The handle knows of the loop device and of the image as long as they exist.
    ghost predicate Valid() reads this, host {
      && host.Safe() && host.mounted == {}
      && (host.attached <==> loopDevice) && (host.image ==> imagePath)
    }

    method Detach(fails: bool) returns (ok: bool)
      requires Valid()
      modifies this, host
      ensures Valid() && imagePath == old(imagePath) && host.image == old(host.image)
      ensures loopDevice == (old(loopDevice) && fails) && (ok <==> !loopDevice)
      ensures host.faults == old(host.faults) + (if ok then 0 else 1) && host.populated == old(host.populated)
    {
      if !loopDevice { return true; }
      ok := host.DetachLoopback(fails);
      if ok { loopDevice := false; }
    }

    // A failed Close leaves what is still attached, and the image with it, for another Close.
    method Close(a: Attempt) returns (ok: bool)
      requires Valid() && isImage
      modifies this, host
      ensures Valid()
      ensures ok ==> host.Nothing() && !loopDevice && !imagePath
      ensures !ok ==> host.image == old(host.image) && imagePath == old(imagePath)
      ensures !ok && loopDevice ==> host.image && host.attached
      ensures loopDevice == (old(loopDevice) && a.detachFails)
      ensures ok <==> !(old(loopDevice) && a.detachFails) && !(old(host.image) && a.removeFails)
    {
      ok := Detach(a.detachFails);
      if !ok { return; }
      if isImage && imagePath {
        ok := host.RemoveImage(a.removeFails);
        if ok { imagePath := false; }
      }
    }

    // Finalize keeps the image in every case; syncing it may fail after the detach.
    method Finalize(fails: bool) returns (ok: bool)
      requires Valid()
      modifies this, host
      ensures Valid() && host.image == old(host.image) && host.populated == old(host.populated)
      ensures host.attached == (old(host.attached) && fails) && (host.attached ==> host.image)
      ensures ok ==> !host.attached
      ensures host.faults >= old(host.faults) && (ok <==> host.faults == old(host.faults))
    {
      ok := Detach(fails);
      if !ok { return; }
      ok := host.Step();
    }

    // The attempts up to the j-th finish: one of them detaches, and the last can remove the image.
    predicate Finishes(attempts: seq<Attempt>, j: nat, loop: bool, image: bool)
      requires j < |attempts|
    {
      (loop ==> exists i | 0 <= i <= j :: !attempts[i].detachFails) && (image ==> !attempts[j].removeFails)
    }

    // Closing again and again, whatever fails in between, ends exactly when an attempt meets no
    // failure at what is left to do.
    method CloseUntilDone(attempts: seq<Attempt>) returns (ok: bool)
      requires Valid() && isImage
      modifies this, host
      ensures Valid()
      ensures ok <==> exists j: nat | j < |attempts| :: Finishes(attempts, j, old(loopDevice), old(host.image))
      ensures ok ==> host.Nothing()
      ensures !ok ==> host.image == old(host.image)
    {
      ok := false;
      for i := 0 to |attempts|
        invariant Valid() && !ok && host.image == old(host.image)
        invariant loopDevice == (old(loopDevice) && forall k | 0 <= k < i :: attempts[k].detachFails)
        invariant forall j: nat | j < i :: !Finishes(attempts, j, old(loopDevice), old(host.image))
      {
        ok := Close(attempts[i]);
        if ok {
          assert Finishes(attempts, i, old(loopDevice), old(host.image));
          return;
        }
      }
    }
  }
}
