/** `utils/ConstantUtils.java`: where the extractor looks for tests. */
module ConstantUtils {
  import opened Text
  import PluginUtils

  /** A path "extensions/…/deployment". Every such module is also an extension
      test module in the sense of `PluginUtils`, which adds the supplementary modules. */
  function IsExtensionDeploymentModule(relativePath: string): (r: bool)
    ensures r ==> PluginUtils.IsExtensionTestModule(relativePath)
  {
    StartsWith(relativePath, PluginUtils.EXTENSIONS + "/")
    && EndsWith(relativePath, "/" + PluginUtils.DEPLOYMENT)
  }

  /** The two classifications differ exactly on the supplementary modules. */
  lemma ExtensionTestModuleCases(relativePath: string)
    ensures PluginUtils.IsExtensionTestModule(relativePath) <==>
      IsExtensionDeploymentModule(relativePath)
      || (StartsWith(relativePath, "extensions/") && PluginUtils.IsExtensionsSupplementaryModule(relativePath))
  {
  }
}
