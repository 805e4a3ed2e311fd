/**
 * The feature actions that the backend suites call. Each one reads the input
 * DICOM data and writes artefacts with an external imaging library; the model
 * keeps only its identity, so that the trace of a command says which features
 * ran, in which order, and with which context.
 */
module FeatureSteps {

  datatype Step =
    // GDCMTests::Test... (src/modules/GDCM/GDCMTestInterface.h)
    | TagInspection | Anonymization | Decompression | UIDRewrite | DatasetDump
    | JPEG2000Transcode | RLETranscode | JPEGLSTranscode | PixelStatistics
    | DirectoryScan | PreviewExport
    // DCMTKTests::Test... (src/modules/DCMTK/DCMTKTestInterface.h)
    | TagModification | PixelDataExtraction | LosslessJPEGReencode | JPEGBaseline
    | RLEReencode | RawDump | ExplicitVRRewrite | MetadataReport | BMPPreview
    | DICOMDIRGeneration
    // ITKTests::Test... (src/modules/ITK/ITKTestInterface.h)
    | CannyEdgeDetection | GaussianSmoothing | MedianFilter | BinaryThresholding
    | Resampling | AdaptiveHistogram | SliceExtraction | NRRDExport
    // VTKTests::Test... (src/modules/VTK/VTKTestInterface.h)
    | ImageExport | IsosurfaceExtraction | MPR | ThresholdMask | MetadataExport
}
