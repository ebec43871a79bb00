/**
 * The bundle splitter of `vite.config.js`: `manualChunks(id)` names the
 * output chunk of a module from substring tests on its id, in a fixed order.
 */
module ViteChunks {
  import opened Strings

  /** Every name the classifier can give. */
  const CHUNK_NAMES: set<string> :=
    {"vendor-three", "vendor-react", "vendor-pdfjs", "vendor-r3f", "vendor", "pages", "ui", "modules", "main"}

  /** The ids of the application's own source folders, in the order the classifier tests them. */
  function SourceChunk(id: string): (name: string)
    ensures name in CHUNK_NAMES && !StartsWith(name, "vendor")
  {
    SourceChunksAreNotVendor();
    if Contains(id, "src/pages") then "pages"
    else if Contains(id, "src/ui") then "ui"
    else if Contains(id, "src/modules") then "modules"
    else "main"
  }

  /** None of the four source chunk names carries the `vendor` prefix. */
  lemma SourceChunksAreNotVendor()
    ensures !StartsWith("pages", "vendor") && !StartsWith("ui", "vendor")
    ensures !StartsWith("modules", "vendor") && !StartsWith("main", "vendor")
  {
    assert "modules"[..6][0] == 'm';
  }

  /** `manualChunks(id)` as written: the `@react-three` test comes after the `three` test. */
  function ManualChunks(id: string): (name: string)
    ensures name in CHUNK_NAMES
    ensures StartsWith(name, "vendor") <==> Contains(id, "node_modules")
    ensures name != "vendor-r3f"
  {
    if Contains(id, "node_modules") then
      if Contains(id, "three") then "vendor-three"
      else if Contains(id, "react") then "vendor-react"
      else if Contains(id, "pdfjs-dist") then "vendor-pdfjs"
      else if Contains(id, "@react-three") then (ReactThreeContainsThree(id); "vendor-r3f")
      else "vendor"
    else SourceChunk(id)
  }

  /** Any id naming a `@react-three` package also contains `three`. */
  lemma ReactThreeContainsThree(id: string)
    ensures Contains(id, "@react-three") ==> Contains(id, "three")
  {
    if Contains(id, "@react-three") {
      assert OccursAt("@react-three", "three", 7);
      ContainsTransitive(id, "@react-three", "three");
    }
  }

  /** The tests run in order: `three` beats `react`, `react` beats `pdfjs-dist`, and a package matching none is `vendor`. */
  lemma VendorPrecedence(id: string)
    requires Contains(id, "node_modules")
    ensures Contains(id, "three") ==> ManualChunks(id) == "vendor-three"
    ensures !Contains(id, "three") && Contains(id, "react") ==> ManualChunks(id) == "vendor-react"
    ensures !Contains(id, "three") && !Contains(id, "react") && Contains(id, "pdfjs-dist") ==>
              ManualChunks(id) == "vendor-pdfjs"
    ensures !Contains(id, "three") && !Contains(id, "react") && !Contains(id, "pdfjs-dist") ==>
              ManualChunks(id) == "vendor"
  {
    ReactThreeContainsThree(id);
  }

  /** Outside `node_modules`, `src/pages` beats `src/ui`, which beats `src/modules`, and anything else is `main`. */
  lemma SourcePrecedence(id: string)
    requires !Contains(id, "node_modules")
    ensures Contains(id, "src/pages") ==> ManualChunks(id) == "pages"
    ensures !Contains(id, "src/pages") && Contains(id, "src/ui") ==> ManualChunks(id) == "ui"
    ensures !Contains(id, "src/pages") && !Contains(id, "src/ui") && Contains(id, "src/modules") ==>
              ManualChunks(id) == "modules"
    ensures !Contains(id, "src/pages") && !Contains(id, "src/ui") && !Contains(id, "src/modules") ==>
              ManualChunks(id) == "main"
  {
  }

  /** The entry module of the react-three-fiber package, as the bundler names it. */
  const R3F_PACKAGE: string := "node_modules/@react-three/fiber/index.js"

  lemma R3fPackageSubstrings()
    ensures Contains(R3F_PACKAGE, "node_modules")
    ensures Contains(R3F_PACKAGE, "@react-three")
    ensures Contains(R3F_PACKAGE, "three")
  {
    var pkg := R3F_PACKAGE;
    assert pkg == "node_modules" + "/" + "@react-three" + "/fiber/index.js";
    assert pkg[..12] == "node_modules";
    assert OccursAt(pkg, "node_modules", 0);
    assert pkg[13..25] == "@react-three";
    assert OccursAt(pkg, "@react-three", 13);
    ReactThreeContainsThree(pkg);
  }

  /** The package the author evidently meant for `vendor-r3f` lands in `vendor-three`. */
  lemma R3fPackageMisfiled()
    ensures ManualChunks(R3F_PACKAGE) == "vendor-three"
  {
    R3fPackageSubstrings();
  }

  /** The classifier with the `@react-three` test moved ahead of the `three` test, so every branch is live. */
  function ManualChunksIntended(id: string): (name: string)
    ensures name in CHUNK_NAMES
    ensures StartsWith(name, "vendor") <==> Contains(id, "node_modules")
    ensures Contains(id, "node_modules") && Contains(id, "@react-three") ==> name == "vendor-r3f"
    ensures name == "vendor-r3f" ==> Contains(id, "@react-three")
  {
    if Contains(id, "node_modules") then
      if Contains(id, "@react-three") then "vendor-r3f"
      else if Contains(id, "three") then "vendor-three"
      else if Contains(id, "react") then "vendor-react"
      else if Contains(id, "pdfjs-dist") then "vendor-pdfjs"
      else "vendor"
    else SourceChunk(id)
  }

  /** The corrected classifier files the `@react-three` package under `vendor-r3f`. */
  lemma IntendedSeparatesR3f()
    ensures ManualChunksIntended(R3F_PACKAGE) == "vendor-r3f"
  {
    R3fPackageSubstrings();
  }

  /** On every id that names no `@react-three` package, the corrected classifier agrees with the original. */
  lemma IntendedAgreesElsewhere(id: string)
    requires !Contains(id, "@react-three")
    ensures ManualChunksIntended(id) == ManualChunks(id)
  {
  }
}
