/**
 * The build's event names. The `BUILD_EVENTS` constants are named after
 * their keys; the three string names that the older hashing scripts emit
 * ('asset-hash-js-listed', 'asset-hash-images-listed',
 * 'asset-hash-css-listed') are kept apart because build-events.js, which
 * would say whether they coincide with any constant, is not part of this
 * model.
 */
module BuildEvents {

  datatype Event =
    | VideosMoved | ImagesMoved | PageMappingDataCompiled | PreviewReady
    | JsMoved | TemplatesMoved | StylesMoved
    | AssetHashCssListed | AssetHashImagesListed | AssetHashJsListed
    | HashingDone | GzipDone | HtmlMinified | JsMinified | SitemapDone
    | IndexCssForHashing | SvgsOptimized | ExternalLinksProcessed
    | LegacyAssetHashJsListed | LegacyAssetHashImagesListed | LegacyAssetHashCssListed
}
