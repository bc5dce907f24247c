/**
 * The settings layer's own platform enum: the same detection and names as
 * the shared one.
 */
module SettingsPlatform {
  import CommonPlatform

  datatype Platform = MacOS | Linux | Windows

  /** `Platform::detect`, with the target OS name as `os`. */
  function Detect(os: string): Platform {
    match os
    case "macos" => MacOS
    case "linux" => Linux
    case "windows" => Windows
    case _ => Linux
  }

  /** `Platform::as_str`. */
  function AsStr(p: Platform): string {
    match p
    case MacOS => "macOS"
    case Linux => "Linux"
    case Windows => "Windows"
  }

  /** `Display for Platform`: exactly the name `as_str` gives. */
  function Display(p: Platform): string {
    AsStr(p)
  }

  /** The three known names map to their platforms; every other name
      falls back to Linux. */
  lemma DetectMaps(os: string)
    ensures Detect(os) == MacOS <==> os == "macos"
    ensures Detect(os) == Windows <==> os == "windows"
    ensures Detect(os) == Linux <==> os != "macos" && os != "windows"
  {
  }

  /** The display names tell the platforms apart. */
  lemma AsStrDistinct(p: Platform, q: Platform)
    ensures AsStr(p) == AsStr(q) <==> p == q
  {
    if p != q {
      assert AsStr(p)[0] != AsStr(q)[0] || |AsStr(p)| != |AsStr(q)|;
    }
  }

  /** The shared enum's counterpart of a platform. */
  function ToCommon(p: Platform): CommonPlatform.Platform {
    match p
    case MacOS => CommonPlatform.MacOS
    case Linux => CommonPlatform.Linux
    case Windows => CommonPlatform.Windows
  }

  /** Both enums detect the same platform for every OS name and show it
      under the same name. */
  lemma AgreesWithCommon(os: string, p: Platform)
    ensures ToCommon(Detect(os)) == CommonPlatform.Detect(os)
    ensures AsStr(p) == CommonPlatform.AsStr(ToCommon(p))
  {
  }
}
